/**
 * The merge helpers that fold feature components into a layout: order-keeping
 * deduplication, anchored insertion of layer names, the macro catalogue merge
 * (later definitions replace earlier ones of the same name, but keep the
 * position of the first), and the section and layer merges built on them.
 */
module Merge {
  import opened Wrappers
  import opened Json
  import opened Seqs
  import opened Layout

  // ---------------------------------------------------------------------
  // unique_sequence

  /** `unique_sequence`: a `seen` set and the list of first occurrences. */
  method UniqueSequence(values: seq<string>) returns (ordered: seq<string>)
    ensures ordered == Dedup(values)
  {
    var seen: set<string> := {};
    ordered := [];
    var i := 0;
    while i < |values|
      invariant 0 <= i <= |values|
      invariant ordered == Dedup(values[..i])
      invariant forall x :: x in seen <==> x in ordered
    {
      var value := values[i];
      assert values[..i + 1][..i] == values[..i];
      if value !in seen {
        seen := seen + {value};
        ordered := ordered + [value];
      }
      i := i + 1;
    }
    assert values[..i] == values;
  }

  // ---------------------------------------------------------------------
  // insert_layer_names

  datatype InsertError =
    | BothAnchors              // both `after` and `before` were given
    | AnchorMissing(anchor: string)  // the anchor is not in the order once the new names are set aside

  /**
   * `insert_layer_names`: without an anchor the new names are appended;
   * with one, they are taken out of the order and put back as one block
   * just before `before` or just after `after`.
   */
  function InsertNames(current: seq<string>, names: seq<string>, after: Option<string>, before: Option<string>)
    : Result<seq<string>, InsertError>
  {
    var sanitized := Dedup(names);
    if sanitized == [] then Ok(current)
    else if after.Some? && before.Some? then Err(BothAnchors)
    else if after.None? && before.None? then Ok(AppendNew(current, sanitized))
    else
      var filtered := Without(current, sanitized);
      var block := Without(sanitized, filtered);
      var anchor := if before.Some? then before.value else after.value;
      if anchor !in filtered then Err(AnchorMissing(anchor))
      else
        var at := if before.Some? then IndexOf(filtered, anchor) else IndexOf(filtered, anchor) + 1;
        Ok(filtered[..at] + block + filtered[at..])
  }

  /** Membership in a filtered list. */
  lemma WithoutMembers(s: seq<string>, excluded: seq<string>, x: string)
    ensures x in Without(s, excluded) <==> x in s && x !in excluded
  {
    var r := Without(s, excluded);
    if x in r {
      var k :| 0 <= k < |r| && r[k] == x;
    }
    if x in s && x !in excluded {
      var k :| 0 <= k < |s| && s[k] == x;
    }
  }

  /**
   * When `insert_layer_names` raises: two anchors, or an anchor that is not
   * in the order or is itself one of the names being inserted; and only
   * when there is something to insert.
   */
  lemma InsertNamesErrors(current: seq<string>, names: seq<string>, after: Option<string>, before: Option<string>)
    ensures InsertNames(current, names, after, before).Err? <==>
      && names != []
      && (|| (after.Some? && before.Some?)
          || (after.Some? && (after.value !in current || after.value in names))
          || (before.Some? && (before.value !in current || before.value in names)))
    ensures InsertNames(current, names, after, before) == Err(BothAnchors) <==>
      names != [] && after.Some? && before.Some?
  {
    DedupIsFirstOccurrences(names);
    var sanitized := Dedup(names);
    assert sanitized == [] <==> names == [] by {
      if names != [] {
        assert names[0] in sanitized;
      }
    }
    if after.Some? {
      WithoutMembers(current, sanitized, after.value);
    }
    if before.Some? {
      WithoutMembers(current, sanitized, before.value);
    }
  }

  /** Without an anchor the order keeps its prefix and gains the missing names, in order, once each. */
  lemma InsertNamesAppends(current: seq<string>, names: seq<string>)
    ensures InsertNames(current, names, None, None).Ok?
    ensures var r := InsertNames(current, names, None, None).value;
      && |current| <= |r| && r[..|current|] == current
      && (forall x :: x in r <==> x in current || x in names)
      && (NoDup(current) ==> NoDup(r))
  {
    DedupIsFirstOccurrences(names);
  }

  /** The list `insert_layer_names` splices into: the current order with the new names set aside. */
  function Filtered(current: seq<string>, names: seq<string>): seq<string> {
    Without(current, Dedup(names))
  }

  /** Where the block goes: at the anchor for `before`, just past it for `after`. */
  function SplicePoint(current: seq<string>, names: seq<string>, anchor: string, isBefore: bool): (at: nat)
    requires anchor in Filtered(current, names)
    ensures at <= |Filtered(current, names)|
  {
    var i := IndexOf(Filtered(current, names), anchor);
    if isBefore then i else i + 1
  }

  /**
   * With one anchor that is in the order and not itself being inserted, the
   * insert succeeds: the old names that are not being inserted keep their
   * order, and the deduplicated new names come in as one contiguous block
   * right before `before` (or right after `after`).
   */
  lemma InsertNamesAnchored(current: seq<string>, names: seq<string>, anchor: string, isBefore: bool)
    requires names != [] && anchor in current && anchor !in names
    ensures anchor in Filtered(current, names)
    ensures var filtered := Filtered(current, names);
      var at := SplicePoint(current, names, anchor, isBefore);
      var r := filtered[..at] + Dedup(names) + filtered[at..];
      && InsertNames(current, names, if isBefore then None else Some(anchor), if isBefore then Some(anchor) else None) == Ok(r)
      && (isBefore ==> r[at + |Dedup(names)|] == anchor)
      && (!isBefore ==> 0 < at && r[at - 1] == anchor)
  {
    DedupIsFirstOccurrences(names);
    var sanitized := Dedup(names);
    assert names[0] in sanitized;
    var filtered := Without(current, sanitized);
    WithoutMembers(current, sanitized, anchor);
    forall k | 0 <= k < |sanitized|
      ensures sanitized[k] !in filtered
    {
      WithoutMembers(current, sanitized, sanitized[k]);
    }
    WithoutDisjoint(sanitized, filtered);
    var at := SplicePoint(current, names, anchor, isBefore);
    InsertNamesSplices(current, names, anchor, isBefore);
    var r := filtered[..at] + sanitized + filtered[at..];
    if isBefore {
      assert r[at + |sanitized|] == filtered[at];
    } else {
      assert r[at - 1] == filtered[at - 1];
    }
  }

  /** `insert_layer_names` with one anchor present in the filtered order splices the block in there. */
  lemma InsertNamesSplices(current: seq<string>, names: seq<string>, anchor: string, isBefore: bool)
    requires Dedup(names) != [] && anchor in Filtered(current, names)
    ensures var filtered := Filtered(current, names);
      var at := SplicePoint(current, names, anchor, isBefore);
      InsertNames(current, names, if isBefore then None else Some(anchor), if isBefore then Some(anchor) else None)
        == Ok(filtered[..at] + Without(Dedup(names), filtered) + filtered[at..])
  {
  }

  /** A successful anchored insert loses no name and, on an order without repeats, adds none. */
  lemma InsertNamesAnchoredKeeps(current: seq<string>, names: seq<string>, anchor: string, isBefore: bool)
    requires names != [] && anchor in current && anchor !in names
    ensures var r := InsertNames(current, names, if isBefore then None else Some(anchor), if isBefore then Some(anchor) else None).value;
      && (forall x :: x in r <==> x in current || x in names)
      && (NoDup(current) ==> NoDup(r))
  {
    InsertNamesAnchored(current, names, anchor, isBefore);
    DedupIsFirstOccurrences(names);
    var sanitized := Dedup(names);
    var filtered := Filtered(current, names);
    var at := SplicePoint(current, names, anchor, isBefore);
    SpliceMembers(filtered, sanitized, at);
    forall x
      ensures x in filtered || x in sanitized <==> x in current || x in names
    {
      WithoutMembers(current, sanitized, x);
    }
    if NoDup(current) {
      WithoutNoDup(current, sanitized);
      forall k | 0 <= k < |sanitized|
        ensures sanitized[k] !in filtered
      {
        WithoutMembers(current, sanitized, sanitized[k]);
      }
      SpliceNoDup(filtered, sanitized, at);
    }
  }

  /** `insert_layer_names`, which rewrites `current_order` in place: the new order, or the error it raises. */
  method InsertLayerNames(current: seq<string>, names: seq<string>, after: Option<string>, before: Option<string>)
    returns (r: Result<seq<string>, InsertError>)
    ensures r == InsertNames(current, names, after, before)
  {
    var sanitized := UniqueSequence(names);
    if sanitized == [] {
      return Ok(current);
    }
    if after.Some? && before.Some? {
      return Err(BothAnchors);
    }
    if after.None? && before.None? {
      var order := current;
      var i := 0;
      while i < |sanitized|
        invariant 0 <= i <= |sanitized|
        invariant order == AppendNew(current, sanitized[..i])
      {
        assert sanitized[..i + 1][..i] == sanitized[..i];
        if sanitized[i] !in order {
          order := order + [sanitized[i]];
        }
        i := i + 1;
      }
      assert sanitized[..i] == sanitized;
      return Ok(order);
    }
    var filtered := Without(current, sanitized);
    var anchor := if before.Some? then before.value else after.value;
    if anchor !in filtered {
      return Err(AnchorMissing(anchor));
    }
    var at := IndexOf(filtered, anchor);
    if after.Some? {
      at := at + 1;
    }
    r := Ok(filtered[..at] + Without(sanitized, filtered) + filtered[at..]);
  }

  // ---------------------------------------------------------------------
  // merge_macros_in_place

  datatype MacroError =
    | MissingName    // KeyError: a macro without a readable `name`, or one that cannot be given one
    | NameNotString  // TypeError: a `name` that is not a string

  /** `macro_name`: only a dict can carry a `name`; it must be a string. */
  function MacroName(m: Json): (r: Result<string, MacroError>)
    ensures r.Ok? <==> m.JObj? && Get(m.fields, "name").Some? && Get(m.fields, "name").value.JStr?
  {
    match m
    case JObj(fields) =>
      (match Get(fields, "name")
       case None => Err(MissingName)
       case Some(JStr(s)) => Ok(s)
       case Some(_) => Err(NameNotString))
    case _ => Err(MissingName)
  }

  /**
   * `_ensure_macro_name` on a dict: a dict that already has a `name` is kept
   * (its copy is equal to it as a value, as `setdefault` leaves the key alone),
   * otherwise `name` is added. Anything else cannot be given a name.
   */
  function EnsureMacroName(m: Json, name: string): (r: Result<Json, MacroError>)
    ensures r.Ok? <==> m.JObj?
    ensures r.Ok? ==> r.value.JObj? && HasKey(r.value.fields, "name")
    ensures r.Ok? && MacroName(m) == Ok(name) ==> r.value == m
  {
    match m
    case JObj(fields) =>
      if HasKey(fields, "name") then Ok(m)
      else
        GetAppended(fields, "name", JStr(name));
        Ok(JObj(fields + [("name", JStr(name))]))
    case _ => Err(MissingName)
  }

  /** A macro to index, with the explicit name it is filed under (`""` for none). */
  datatype MacroEntry = MacroEntry(macro: Json, explicitName: string)

  function Apply(transform: Option<Json -> Json>, j: Json): Json {
    match transform
    case None => j
    case Some(f) => f(j)
  }

  /** What `_index` files: the name (explicit unless empty) and the named macro. */
  function Resolve(e: MacroEntry, transform: Option<Json -> Json>): Result<(string, Json), MacroError> {
    var data := Apply(transform, e.macro);
    var name := if e.explicitName != "" then Ok(e.explicitName) else MacroName(data);
    match name
    case Err(err) => Err(err)
    case Ok(n) =>
      match EnsureMacroName(data, n)
      case Err(err) => Err(err)
      case Ok(named) => Ok((n, named))
  }

  /** The `order` list and `catalog` dict `merge_macros_in_place` builds. */
  datatype Catalog = Catalog(order: seq<string>, byName: map<string, Json>)

  ghost predicate CatalogValid(c: Catalog) {
    NoDup(c.order) && forall n :: n in c.order <==> n in c.byName
  }

  /** `_index`: a new name joins the order; the catalog entry is (re)placed. */
  function IndexEntry(c: Catalog, e: MacroEntry, transform: Option<Json -> Json>): Result<Catalog, MacroError> {
    match Resolve(e, transform)
    case Err(err) => Err(err)
    case Ok((n, named)) =>
      Ok(Catalog(if n in c.order then c.order else c.order + [n], c.byName[n := named]))
  }

  /** `_index` applied to each entry in turn; the first failure stops the merge. */
  function IndexAll(entries: seq<MacroEntry>, transform: Option<Json -> Json>): (r: Result<Catalog, MacroError>)
    ensures r.Ok? ==> CatalogValid(r.value)
    decreases |entries|
  {
    if entries == [] then Ok(Catalog([], map[]))
    else
      match IndexAll(entries[..|entries| - 1], transform)
      case Err(err) => Err(err)
      case Ok(c) => IndexEntry(c, entries[|entries| - 1], transform)
  }

  /** The existing macros, then the appended ones, then the overrides under their keys. */
  function Entries(existing: seq<Json>, appended: seq<Json>, overrides: OrderedMap<Json>): (r: seq<MacroEntry>)
    ensures |r| == |existing| + |appended| + |overrides|
  {
    seq(|existing|, i requires 0 <= i < |existing| => MacroEntry(existing[i], ""))
    + seq(|appended|, i requires 0 <= i < |appended| => MacroEntry(appended[i], ""))
    + seq(|overrides|, i requires 0 <= i < |overrides| => MacroEntry(overrides[i].1, overrides[i].0))
  }

  /** `[catalog[name] for name in order]`. */
  function Listing(c: Catalog): (r: seq<Json>)
    requires CatalogValid(c)
    ensures |r| == |c.order|
  {
    seq(|c.order|, i requires 0 <= i < |c.order| => c.byName[c.order[i]])
  }

  /** `merge_macros_in_place`: the list `existing` ends up holding, or the error raised (leaving it as it was). */
  function MergeMacros(existing: seq<Json>, appended: seq<Json>, overrides: OrderedMap<Json>, transform: Option<Json -> Json>)
    : Result<seq<Json>, MacroError>
  {
    match IndexAll(Entries(existing, appended, overrides), transform)
    case Err(err) => Err(err)
    case Ok(c) => Ok(Listing(c))
  }

  /** The names the entries are filed under, when every entry resolves. */
  function NamesOf(entries: seq<MacroEntry>, transform: Option<Json -> Json>): (r: seq<string>)
    requires forall k :: 0 <= k < |entries| ==> Resolve(entries[k], transform).Ok?
    ensures |r| == |entries|
  {
    seq(|entries|, k requires 0 <= k < |entries| => Resolve(entries[k], transform).value.0)
  }

  /** No later name repeats the one at position `k`. */
  predicate LastOf(names: seq<string>, k: nat) {
    forall m :: k < m < |names| ==> names[m] != names[k]
  }

  /** The catalogue merge succeeds exactly when every entry resolves. */
  lemma {:induction false} IndexAllSucceeds(entries: seq<MacroEntry>, transform: Option<Json -> Json>)
    ensures IndexAll(entries, transform).Ok? <==> forall k :: 0 <= k < |entries| ==> Resolve(entries[k], transform).Ok?
    decreases |entries|
  {
    if entries != [] {
      var n := |entries| - 1;
      var prefix := entries[..n];
      IndexAllSucceeds(prefix, transform);
      if IndexAll(entries, transform).Ok? {
        assert IndexAll(prefix, transform).Ok?;
        forall k | 0 <= k < |entries|
          ensures Resolve(entries[k], transform).Ok?
        {
          if k < n {
            assert prefix[k] == entries[k];
          }
        }
      } else if forall k :: 0 <= k < |entries| ==> Resolve(entries[k], transform).Ok? {
        forall j | 0 <= j < n
          ensures Resolve(prefix[j], transform).Ok?
        {
          assert prefix[j] == entries[j];
        }
        assert false;
      }
    }
  }

  /** Each entry's name and named macro, when every entry resolves. */
  function Pairs(entries: seq<MacroEntry>, transform: Option<Json -> Json>): (r: seq<(string, Json)>)
    requires forall k :: 0 <= k < |entries| ==> Resolve(entries[k], transform).Ok?
    ensures |r| == |entries|
  {
    seq(|entries|, k requires 0 <= k < |entries| => Resolve(entries[k], transform).value)
  }

  /** The catalogue `_index` builds from names and macros that have already resolved. */
  function Catalogued(pairs: seq<(string, Json)>): (r: Catalog)
    ensures CatalogValid(r)
    ensures forall n :: n in r.byName <==> n in KeysOf(pairs)
    decreases |pairs|
  {
    if pairs == [] then Catalog([], map[])
    else
      var c := Catalogued(pairs[..|pairs| - 1]);
      var last := pairs[|pairs| - 1];
      KeysOfSnoc(pairs);
      Catalog(if last.0 in c.order then c.order else c.order + [last.0], c.byName[last.0 := last.1])
  }

  /** When every entry resolves, the merge succeeds with the catalogue of the resolved entries. */
  lemma {:induction false} IndexAllCatalogued(entries: seq<MacroEntry>, transform: Option<Json -> Json>)
    requires forall k :: 0 <= k < |entries| ==> Resolve(entries[k], transform).Ok?
    ensures IndexAll(entries, transform) == Ok(Catalogued(Pairs(entries, transform)))
    decreases |entries|
  {
    if entries != [] {
      var n := |entries| - 1;
      var prefix := entries[..n];
      forall j | 0 <= j < n
        ensures Resolve(prefix[j], transform).Ok?
      {
        assert prefix[j] == entries[j];
      }
      IndexAllCatalogued(prefix, transform);
      var pairs := Pairs(entries, transform);
      var before := Pairs(prefix, transform);
      forall j | 0 <= j < n
        ensures pairs[..n][j] == before[j]
      {
        assert prefix[j] == entries[j];
      }
      assert pairs[..n] == before;
    }
  }

  /** The names of the entries are the keys of their resolved pairs. */
  lemma NamesArePairKeys(entries: seq<MacroEntry>, transform: Option<Json -> Json>)
    requires forall k :: 0 <= k < |entries| ==> Resolve(entries[k], transform).Ok?
    ensures NamesOf(entries, transform) == KeysOf(Pairs(entries, transform))
  {
  }

  /** The order of a catalogue: each name once, at its first occurrence. */
  lemma {:induction false} CataloguedOrder(pairs: seq<(string, Json)>)
    ensures Catalogued(pairs).order == Dedup(KeysOf(pairs))
    decreases |pairs|
  {
    if pairs != [] {
      var n := |pairs| - 1;
      CataloguedOrder(pairs[..n]);
      KeysOfSnoc(pairs);
      DedupSnoc(KeysOf(pairs[..n]), pairs[n].0);
    }
  }

  /** A catalogue files under a name the macro of its last occurrence. */
  lemma {:induction false} CataloguedLastWins(pairs: seq<(string, Json)>, k: nat)
    requires k < |pairs|
    requires forall m :: k < m < |pairs| ==> pairs[m].0 != pairs[k].0
    ensures pairs[k].0 in Catalogued(pairs).byName && Catalogued(pairs).byName[pairs[k].0] == pairs[k].1
    decreases |pairs|
  {
    var n := |pairs| - 1;
    var prefix := pairs[..n];
    CataloguedStep(pairs);
    if k < n {
      forall m | k < m < n
        ensures prefix[m].0 != prefix[k].0
      {
        assert prefix[m] == pairs[m];
      }
      CataloguedLastWins(prefix, k);
      assert pairs[n].0 != pairs[k].0;
    }
  }

  /** One more pair files its macro under its name over the catalogue of the prefix. */
  lemma CataloguedStep(pairs: seq<(string, Json)>)
    requires pairs != []
    ensures var last := pairs[|pairs| - 1];
      Catalogued(pairs).byName == Catalogued(pairs[..|pairs| - 1]).byName[last.0 := last.1]
  {
  }

  /** The names a successful merge lists: each name once, at its first occurrence. */
  lemma IndexAllOrder(entries: seq<MacroEntry>, transform: Option<Json -> Json>)
    requires forall k :: 0 <= k < |entries| ==> Resolve(entries[k], transform).Ok?
    ensures IndexAll(entries, transform).Ok?
    ensures IndexAll(entries, transform).value.order == Dedup(NamesOf(entries, transform))
  {
    IndexAllCatalogued(entries, transform);
    NamesArePairKeys(entries, transform);
    CataloguedOrder(Pairs(entries, transform));
  }

  /** The macro a successful merge files under a name is that of the name's LAST occurrence: later definitions win. */
  lemma IndexAllLastWins(entries: seq<MacroEntry>, transform: Option<Json -> Json>, k: nat)
    requires forall k :: 0 <= k < |entries| ==> Resolve(entries[k], transform).Ok?
    requires k < |entries| && LastOf(NamesOf(entries, transform), k)
    ensures IndexAll(entries, transform).Ok?
    ensures var c := IndexAll(entries, transform).value;
      var names := NamesOf(entries, transform);
      names[k] in c.byName && c.byName[names[k]] == Resolve(entries[k], transform).value.1
  {
    var names := NamesOf(entries, transform);
    var pairs := Pairs(entries, transform);
    forall m | k < m < |pairs|
      ensures pairs[m].0 != pairs[k].0
    {
      assert names[m] != names[k];
    }
    IndexAllCatalogued(entries, transform);
    CataloguedLastWins(pairs, k);
  }

  /** A list of dict macros with string names, no two alike. */
  predicate Clean(macros: seq<Json>) {
    && (forall i :: 0 <= i < |macros| ==> MacroName(macros[i]).Ok?)
    && (forall i, j :: 0 <= i < j < |macros| ==> MacroName(macros[i]) != MacroName(macros[j]))
  }

  /** Without explicit names every catalogue entry carries its own key as its `name`. */
  lemma {:induction false} CatalogSelfNamed(entries: seq<MacroEntry>, transform: Option<Json -> Json>)
    requires forall k :: 0 <= k < |entries| ==> entries[k].explicitName == ""
    requires IndexAll(entries, transform).Ok?
    ensures var c := IndexAll(entries, transform).value;
      forall n :: n in c.byName ==> MacroName(c.byName[n]) == Ok(n)
    decreases |entries|
  {
    if entries != [] {
      var n := |entries| - 1;
      CatalogSelfNamed(entries[..n], transform);
    }
  }

  /** Merging a clean list with nothing to add gives the list back unchanged. */
  lemma CleanIsFixpoint(macros: seq<Json>)
    requires Clean(macros)
    ensures MergeMacros(macros, [], [], None) == Ok(macros)
  {
    var entries := Entries(macros, [], []);
    assert |entries| == |macros|;
    forall k | 0 <= k < |entries|
      ensures Resolve(entries[k], None) == Ok((MacroName(macros[k]).value, macros[k]))
    {
      assert entries[k] == MacroEntry(macros[k], "");
      ResolveNamed(macros[k]);
    }
    var names := NamesOf(entries, None);
    forall i, j | 0 <= i < j < |names|
      ensures names[i] != names[j]
    {
      assert MacroName(macros[i]) != MacroName(macros[j]);
    }
    CatalogOfDistinct(entries, None);
    var listing := Listing(IndexAll(entries, None).value);
    assert MergeMacros(macros, [], [], None) == Ok(listing);
    assert forall k :: 0 <= k < |macros| ==> listing[k] == macros[k];
    assert listing == macros;
  }

  /** A macro that already carries a string name resolves to that name and to itself. */
  lemma ResolveNamed(m: Json)
    requires MacroName(m).Ok?
    ensures Resolve(MacroEntry(m, ""), None) == Ok((MacroName(m).value, m))
  {
  }

  /** When no two entries share a name, the rebuilt list holds each entry's named macro, in entry order. */
  lemma CatalogOfDistinct(entries: seq<MacroEntry>, transform: Option<Json -> Json>)
    requires forall k :: 0 <= k < |entries| ==> Resolve(entries[k], transform).Ok?
    requires NoDup(NamesOf(entries, transform))
    ensures IndexAll(entries, transform).Ok?
    ensures var listing := Listing(IndexAll(entries, transform).value);
      && |listing| == |entries|
      && forall k :: 0 <= k < |entries| ==> listing[k] == Resolve(entries[k], transform).value.1
  {
    var names := NamesOf(entries, transform);
    IndexAllOrder(entries, transform);
    DedupNoDup(names);
    var c := IndexAll(entries, transform).value;
    assert c.order == names;
    forall k | 0 <= k < |entries|
      ensures Listing(c)[k] == Resolve(entries[k], transform).value.1
    {
      IndexAllLastWins(entries, transform, k);
    }
  }

  /** A merge without overrides or transform yields a clean list. */
  lemma MergeIsClean(existing: seq<Json>, appended: seq<Json>)
    requires MergeMacros(existing, appended, [], None).Ok?
    ensures Clean(MergeMacros(existing, appended, [], None).value)
  {
    var entries := Entries(existing, appended, []);
    assert forall k :: 0 <= k < |entries| ==> entries[k].explicitName == "";
    CatalogSelfNamed(entries, None);
    var c := IndexAll(entries, None).value;
    var r := Listing(c);
    assert forall i :: 0 <= i < |r| ==> MacroName(r[i]) == Ok(c.order[i]);
  }

  /** Merging macros is idempotent: re-running the merge on its own output changes nothing. */
  lemma MergeIdempotent(existing: seq<Json>, appended: seq<Json>)
    requires MergeMacros(existing, appended, [], None).Ok?
    ensures var once := MergeMacros(existing, appended, [], None).value;
      MergeMacros(once, [], [], None) == Ok(once)
  {
    MergeIsClean(existing, appended);
    CleanIsFixpoint(MergeMacros(existing, appended, [], None).value);
  }

  /**
   * An override filed under a non-empty key replaces whatever the layout
   * had under that name: the merged list holds the override, named.
   */
  lemma OverrideWins(existing: seq<Json>, appended: seq<Json>, overrides: OrderedMap<Json>, transform: Option<Json -> Json>, i: nat)
    requires i < |overrides| && forall j :: 0 <= j < |overrides| ==> overrides[j].0 != ""
    requires MergeMacros(existing, appended, overrides, transform).Ok?
    ensures EnsureMacroName(Apply(transform, overrides[i].1), overrides[i].0).Ok?
    ensures EnsureMacroName(Apply(transform, overrides[i].1), overrides[i].0).value
      in MergeMacros(existing, appended, overrides, transform).value
  {
    var entries := Entries(existing, appended, overrides);
    OverridesLast(existing, appended, overrides, i);
    CatalogExplicitWins(entries, transform, |existing| + |appended| + i);
  }

  /** The entries of overrides under non-empty keys come last, each under its own key. */
  lemma OverridesLast(existing: seq<Json>, appended: seq<Json>, overrides: OrderedMap<Json>, i: nat)
    requires i < |overrides| && forall j :: 0 <= j < |overrides| ==> overrides[j].0 != ""
    ensures var entries := Entries(existing, appended, overrides);
      var k := |existing| + |appended| + i;
      && entries[k] == MacroEntry(overrides[i].1, overrides[i].0)
      && forall m :: k < m < |entries| ==> entries[m].explicitName != "" && entries[m].explicitName != entries[k].explicitName
  {
    var entries := Entries(existing, appended, overrides);
    var base := |existing| + |appended|;
    forall m | base <= m < |entries|
      ensures entries[m] == MacroEntry(overrides[m - base].1, overrides[m - base].0)
    {
    }
  }

  /**
   * An entry with an explicit name that no later entry repeats, all later
   * ones being explicitly named too, ends up named in the rebuilt list.
   */
  lemma CatalogExplicitWins(entries: seq<MacroEntry>, transform: Option<Json -> Json>, k: nat)
    requires IndexAll(entries, transform).Ok? && k < |entries| && entries[k].explicitName != ""
    requires forall m :: k < m < |entries| ==> entries[m].explicitName != "" && entries[m].explicitName != entries[k].explicitName
    ensures EnsureMacroName(Apply(transform, entries[k].macro), entries[k].explicitName).Ok?
    ensures EnsureMacroName(Apply(transform, entries[k].macro), entries[k].explicitName).value
      in Listing(IndexAll(entries, transform).value)
  {
    IndexAllSucceeds(entries, transform);
    var names := NamesOf(entries, transform);
    forall m | k < m < |names|
      ensures names[m] != names[k]
    {
    }
    IndexAllLastWins(entries, transform, k);
    ListingHolds(IndexAll(entries, transform).value, names[k]);
  }

  /** Every catalogued macro appears in the rebuilt list. */
  lemma ListingHolds(c: Catalog, name: string)
    requires CatalogValid(c) && name in c.byName
    ensures c.byName[name] in Listing(c)
  {
    var p :| 0 <= p < |c.order| && c.order[p] == name;
    assert Listing(c)[p] == c.byName[name];
  }

  /** `merge_macros_in_place`: the three `_index` passes, then the rebuilt list. */
  method MergeMacrosInPlace(existing: seq<Json>, appended: seq<Json>, overrides: OrderedMap<Json>, transform: Option<Json -> Json>)
    returns (r: Result<seq<Json>, MacroError>)
    ensures r == MergeMacros(existing, appended, overrides, transform)
  {
    var catalog := IndexEntries(Entries(existing, appended, overrides), transform);
    if catalog.Err? {
      return Err(catalog.error);
    }
    r := Ok(Listing(catalog.value));
  }

  /** The `_index` calls over the entries in turn, stopping at the first failure. */
  method IndexEntries(entries: seq<MacroEntry>, transform: Option<Json -> Json>) returns (r: Result<Catalog, MacroError>)
    ensures r == IndexAll(entries, transform)
  {
    var catalog := Catalog([], map[]);
    var i := 0;
    while i < |entries|
      invariant 0 <= i <= |entries|
      invariant IndexAll(entries[..i], transform) == Ok(catalog)
    {
      IndexAllStep(entries, i, transform);
      var step := IndexEntry(catalog, entries[i], transform);
      if step.Err? {
        PrefixErrorPersists(entries, i + 1, transform);
        return Err(step.error);
      }
      catalog := step.value;
      i := i + 1;
    }
    PrefixWhole(entries);
    r := Ok(catalog);
  }

  /** One more entry after a prefix that went through: `_index` on the prefix's catalogue. */
  lemma IndexAllStep(entries: seq<MacroEntry>, i: nat, transform: Option<Json -> Json>)
    requires i < |entries| && IndexAll(entries[..i], transform).Ok?
    ensures IndexAll(entries[..i + 1], transform) == IndexEntry(IndexAll(entries[..i], transform).value, entries[i], transform)
  {
    PrefixStep(entries, i);
  }

  /** Once a prefix of the entries fails, the whole merge fails with the same error. */
  lemma {:induction false} PrefixErrorPersists(entries: seq<MacroEntry>, n: nat, transform: Option<Json -> Json>)
    requires n <= |entries| && IndexAll(entries[..n], transform).Err?
    ensures IndexAll(entries, transform) == IndexAll(entries[..n], transform)
    decreases |entries| - n
  {
    if n < |entries| {
      PrefixStep(entries, n);
      PrefixErrorPersists(entries, n + 1, transform);
    } else {
      PrefixWhole(entries);
    }
  }

  // ---------------------------------------------------------------------
  // merge_layers_with_order

  /** Every successful `insert_layer_names` keeps the old names, adds the new ones and introduces no repeat. */
  lemma InsertNamesMembers(current: seq<string>, names: seq<string>, after: Option<string>, before: Option<string>)
    requires InsertNames(current, names, after, before).Ok?
    ensures var r := InsertNames(current, names, after, before).value;
      && (forall x :: x in r <==> x in current || x in names)
      && (NoDup(current) ==> NoDup(r))
  {
    DedupIsFirstOccurrences(names);
    InsertNamesErrors(current, names, after, before);
    if names == [] {
    } else if after.None? && before.None? {
      InsertNamesAppends(current, names);
    } else if before.Some? {
      InsertNamesAnchoredKeeps(current, names, before.value, true);
    } else {
      InsertNamesAnchoredKeeps(current, names, after.value, false);
    }
  }

  datatype LayerMergeError =
    | LayerMissing(name: string)      // KeyError: an ordered name has no layer in the components
    | BadAnchor(error: InsertError)   // ValueError from `insert_layer_names`

  /** The order and layer mapping after the merge, with the error it raised, if any. */
  datatype LayerMerge = LayerMerge(names: seq<string>, byName: map<string, Layer>, error: Option<LayerMergeError>)

  /** `explicit_order or components.layers.keys()`: an absent or empty explicit order means the components' own. */
  function DesiredOrder(layers: OrderedMap<Layer>, explicitOrder: Option<seq<string>>): seq<string> {
    match explicitOrder
    case Some(order) => if order != [] then order else KeysOf(layers)
    case None => KeysOf(layers)
  }

  /** The first ordered name the components have no layer for. */
  function FirstMissing(desired: seq<string>, layers: OrderedMap<Layer>): (r: Option<string>)
    ensures r.None? <==> forall i :: 0 <= i < |desired| ==> desired[i] in KeysOf(layers)
    ensures r.Some? ==> r.value in desired && r.value !in KeysOf(layers)
  {
    if desired == [] then None
    else if desired[0] !in KeysOf(layers) then Some(desired[0])
    else FirstMissing(desired[1..], layers)
  }

  function ApplyLayer(transform: Option<Layer -> Layer>, layer: Layer): Layer {
    match transform
    case None => layer
    case Some(f) => f(layer)
  }

  /** The components' layer stored under `name`, transformed. */
  function ComponentLayer(layers: OrderedMap<Layer>, name: string, transform: Option<Layer -> Layer>): Layer
    requires name in KeysOf(layers)
  {
    ApplyLayer(transform, Lookup(layers, name).value)
  }

  /** `layers_by_name[name] = layer_data` for each ordered name in turn. */
  function WriteLayers(byName: map<string, Layer>, desired: seq<string>, layers: OrderedMap<Layer>, transform: Option<Layer -> Layer>)
    : (r: map<string, Layer>)
    requires forall i :: 0 <= i < |desired| ==> desired[i] in KeysOf(layers)
    ensures forall n :: n in r <==> n in byName || n in desired
    ensures forall n :: n in desired ==> r[n] == ComponentLayer(layers, n, transform)
    ensures forall n :: n in byName && n !in desired ==> r[n] == byName[n]
    decreases |desired|
  {
    if desired == [] then byName
    else
      var last := desired[|desired| - 1];
      assert desired == desired[..|desired| - 1] + [last];
      WriteLayers(byName, desired[..|desired| - 1], layers, transform)[last := ComponentLayer(layers, last, transform)]
  }

  /** `merge_layers_with_order`: nothing without layers; a missing name raises before any write; a bad anchor raises after the writes. */
  function LayersMerged(
    names: seq<string>, byName: map<string, Layer>, components: Components,
    after: Option<string>, before: Option<string>, explicitOrder: Option<seq<string>>,
    transform: Option<Layer -> Layer>): LayerMerge
  {
    if components.layers == [] then LayerMerge(names, byName, None)
    else
      var desired := DesiredOrder(components.layers, explicitOrder);
      match FirstMissing(desired, components.layers)
      case Some(missing) => LayerMerge(names, byName, Some(LayerMissing(missing)))
      case None =>
        var written := WriteLayers(byName, desired, components.layers, transform);
        match InsertNames(names, desired, after, before)
        case Err(err) => LayerMerge(names, written, Some(BadAnchor(err)))
        case Ok(order) => LayerMerge(order, written, None)
  }

  /**
   * A successful layer merge leaves every ordered name with its component
   * layer, keeps every other layer, and keeps the order consistent: if every
   * name in the old order had a layer, every name in the new one does, and
   * the order gains exactly the merged names.
   */
  lemma LayersMergedConsistent(
    names: seq<string>, byName: map<string, Layer>, components: Components,
    after: Option<string>, before: Option<string>, explicitOrder: Option<seq<string>>,
    transform: Option<Layer -> Layer>)
    requires components.layers != []
    requires LayersMerged(names, byName, components, after, before, explicitOrder, transform).error.None?
    ensures var m := LayersMerged(names, byName, components, after, before, explicitOrder, transform);
      var desired := DesiredOrder(components.layers, explicitOrder);
      && (forall n :: n in desired ==>
            (n in m.byName && n in KeysOf(components.layers)
             && m.byName[n] == ComponentLayer(components.layers, n, transform)))
      && (forall n :: n in byName && n !in desired ==> n in m.byName && m.byName[n] == byName[n])
      && (forall x :: x in m.names <==> x in names || x in desired)
      && ((forall x :: x in names ==> x in byName) ==> forall x :: x in m.names ==> x in m.byName)
      && (NoDup(names) ==> NoDup(m.names))
  {
    var desired := DesiredOrder(components.layers, explicitOrder);
    InsertNamesMembers(names, desired, after, before);
  }

  /** Merging the layers in the components' own order never misses a name: the order is then the inserted one. */
  lemma OwnOrderMerged(names: seq<string>, byName: map<string, Layer>, components: Components,
                       after: Option<string>, before: Option<string>, transform: Option<Layer -> Layer>)
    requires components.layers != []
    ensures var m := LayersMerged(names, byName, components, after, before, Some(KeysOf(components.layers)), transform);
      var inserted := InsertNames(names, KeysOf(components.layers), after, before);
      && (m.error.None? <==> inserted.Ok?)
      && (inserted.Ok? ==> m.names == inserted.value)
  {
    var keys := KeysOf(components.layers);
    assert DesiredOrder(components.layers, Some(keys)) == keys;
    assert FirstMissing(keys, components.layers).None?;
  }

  /** A name the components lack stops the merge before anything is written. */
  lemma LayersMergedMissingWritesNothing(
    names: seq<string>, byName: map<string, Layer>, components: Components,
    after: Option<string>, before: Option<string>, explicitOrder: Option<seq<string>>,
    transform: Option<Layer -> Layer>)
    requires LayersMerged(names, byName, components, after, before, explicitOrder, transform).error.Some?
    ensures var m := LayersMerged(names, byName, components, after, before, explicitOrder, transform);
      && m.names == names
      && (m.error.value.LayerMissing? ==>
            (&& m.byName == byName
             && m.error.value.name in DesiredOrder(components.layers, explicitOrder)
             && m.error.value.name !in KeysOf(components.layers)))
  {
  }

  /** The write loop of `merge_layers_with_order`. */
  method StoreLayers(byName: map<string, Layer>, desired: seq<string>, layers: OrderedMap<Layer>, transform: Option<Layer -> Layer>)
    returns (written: map<string, Layer>)
    requires forall i :: 0 <= i < |desired| ==> desired[i] in KeysOf(layers)
    ensures written == WriteLayers(byName, desired, layers, transform)
  {
    written := byName;
    var i := 0;
    while i < |desired|
      invariant 0 <= i <= |desired|
      invariant written == WriteLayers(byName, desired[..i], layers, transform)
    {
      WriteLayersStep(byName, desired, layers, transform, i);
      written := written[desired[i] := ComponentLayer(layers, desired[i], transform)];
      i := i + 1;
    }
    PrefixWhole(desired);
  }

  /** One more write after those of a prefix of the order. */
  lemma WriteLayersStep(byName: map<string, Layer>, desired: seq<string>, layers: OrderedMap<Layer>, transform: Option<Layer -> Layer>, i: nat)
    requires i < |desired| && forall j :: 0 <= j <= i ==> desired[j] in KeysOf(layers)
    ensures var done := desired[..i]; forall j :: 0 <= j < |done| ==> done[j] in KeysOf(layers)
    ensures var next := desired[..i + 1]; forall j :: 0 <= j < |next| ==> next[j] in KeysOf(layers)
    ensures WriteLayers(byName, desired[..i + 1], layers, transform)
      == WriteLayers(byName, desired[..i], layers, transform)[desired[i] := ComponentLayer(layers, desired[i], transform)]
  {
    PrefixStep(desired, i);
  }

  /** `merge_layers_with_order` on the caller's order list and layer dict. */
  method MergeLayersWithOrder(
    names: seq<string>, byName: map<string, Layer>, components: Components,
    after: Option<string>, before: Option<string>, explicitOrder: Option<seq<string>>,
    transform: Option<Layer -> Layer>) returns (m: LayerMerge)
    ensures m == LayersMerged(names, byName, components, after, before, explicitOrder, transform)
  {
    if components.layers == [] {
      return LayerMerge(names, byName, None);
    }
    var desired := DesiredOrder(components.layers, explicitOrder);
    var missing := FirstMissing(desired, components.layers);
    if missing.Some? {
      return LayerMerge(names, byName, Some(LayerMissing(missing.value)));
    }
    var written := StoreLayers(byName, desired, components.layers, transform);
    var order := InsertLayerNames(names, desired, after, before);
    if order.Err? {
      return LayerMerge(names, written, Some(BadAnchor(order.error)));
    }
    m := LayerMerge(order.value, written, None);
  }

  // ---------------------------------------------------------------------
  // merge_sections_except_layers

  datatype SectionError =
    | MissingSection(key: string)   // KeyError: the layout has no such section
    | BadMacro(error: MacroError)   // raised by the macro merge
    | NoMacrosByName                // AttributeError: the bundle has no `macros_by_name`

  /** The payload after the merge, with the error that stopped it, if any. */
  datatype SectionMerge = SectionMerge(payload: Payload, error: Option<SectionError>)

  /** `normalize(value) for value in values`, or the values themselves. */
  function Normalized(normalize: Option<Json -> Json>, values: seq<Json>): (r: seq<Json>)
    ensures |r| == |values|
    ensures forall i :: 0 <= i < |values| ==> r[i] == Apply(normalize, values[i])
  {
    seq(|values|, i requires 0 <= i < |values| => Apply(normalize, values[i]))
  }

  /** One section's extension: skipped when there is nothing to add, refused when the section is missing. */
  function Extended(key: string, section: Option<seq<Json>>, values: seq<Json>, normalize: Option<Json -> Json>)
    : Result<Option<seq<Json>>, SectionError>
  {
    if values == [] then Ok(section)
    else if section.None? then Err(MissingSection(key))
    else Ok(Some(section.value + Normalized(normalize, values)))
  }

  /** `merge_sections_except_layers`: macros first, then hold-taps, combos and input listeners; a failure keeps the earlier sections' merges. */
  function SectionsMerged(p: Payload, c: Components, normalize: Option<Json -> Json>, macroNormalize: Option<Json -> Json>)
    : SectionMerge
  {
    if p.macros.None? then SectionMerge(p, Some(MissingSection("macros")))
    else
      match MergeMacros(p.macros.value, c.macros, c.macroOverrides, macroNormalize)
      case Err(err) => SectionMerge(p, Some(BadMacro(err)))
      case Ok(macros) =>
        var p1 := p.(macros := Some(macros));
        match Extended("holdTaps", p1.holdTaps, c.holdTaps, normalize)
        case Err(err) => SectionMerge(p1, Some(err))
        case Ok(holdTaps) =>
          var p2 := p1.(holdTaps := holdTaps);
          match Extended("combos", p2.combos, c.combos, normalize)
          case Err(err) => SectionMerge(p2, Some(err))
          case Ok(combos) =>
            var p3 := p2.(combos := combos);
            match Extended("inputListeners", p3.inputListeners, c.inputListeners, normalize)
            case Err(err) => SectionMerge(p3, Some(err))
            case Ok(listeners) => SectionMerge(p3.(inputListeners := listeners), None)
  }

  /**
   * `merge_sections_except_layers` as written: once the macros section is
   * fetched it reads `components.macros_by_name`, an attribute
   * `LayoutFeatureComponents` does not have, so every call raises before
   * anything is written.
   */
  function SectionsMergedAsWritten(p: Payload, c: Components): (m: SectionMerge)
    ensures m.payload == p && m.error.Some?
    ensures m.error == Some(if p.macros.None? then MissingSection("macros") else NoMacrosByName)
  {
    if p.macros.None? then SectionMerge(p, Some(MissingSection("macros")))
    else SectionMerge(p, Some(NoMacrosByName))
  }

  /**
   * A layout with an empty macros section and an empty bundle: the merge as
   * written raises, while the merge reading the bundle's `macro_overrides`
   * succeeds and changes nothing.
   */
  lemma SectionsAsWrittenRaise()
    ensures var p := Payload(Some([]), Some([]), Some([]), Some([]), Some([]), Some([]));
      var c := Components([], [], [], [], [], []);
      && SectionsMergedAsWritten(p, c).error == Some(NoMacrosByName)
      && SectionsMerged(p, c, None, None) == SectionMerge(p, None)
  {
    var p := Payload(Some([]), Some([]), Some([]), Some([]), Some([]), Some([]));
    var c := Components([], [], [], [], [], []);
    assert Entries([], [], []) == [];
    assert IndexAll([], None) == Ok(Catalog([], map[]));
  }

  /** A section after a successful extension: as it was when nothing was added, else its old entries then the new ones. */
  predicate ExtendedBy(before: Option<seq<Json>>, after: Option<seq<Json>>, values: seq<Json>, normalize: Option<Json -> Json>) {
    if values == [] then after == before
    else before.Some? && after == Some(before.value + Normalized(normalize, values))
  }

  /**
   * The section merge succeeds exactly when the layout has a macros section,
   * the macros merge, and every section with something to add exists; it
   * then holds the merged macros and each section extended by its values,
   * with the layers untouched.
   */
  lemma SectionsMergedEffect(p: Payload, c: Components, normalize: Option<Json -> Json>, macroNormalize: Option<Json -> Json>)
    ensures var m := SectionsMerged(p, c, normalize, macroNormalize);
      m.error.None? <==>
        && p.macros.Some?
        && MergeMacros(p.macros.value, c.macros, c.macroOverrides, macroNormalize).Ok?
        && (c.holdTaps == [] || p.holdTaps.Some?)
        && (c.combos == [] || p.combos.Some?)
        && (c.inputListeners == [] || p.inputListeners.Some?)
    ensures var m := SectionsMerged(p, c, normalize, macroNormalize);
      m.error.None? ==>
        && m.payload.macros == Some(MergeMacros(p.macros.value, c.macros, c.macroOverrides, macroNormalize).value)
        && ExtendedBy(p.holdTaps, m.payload.holdTaps, c.holdTaps, normalize)
        && ExtendedBy(p.combos, m.payload.combos, c.combos, normalize)
        && ExtendedBy(p.inputListeners, m.payload.inputListeners, c.inputListeners, normalize)
        && m.payload.layers == p.layers && m.payload.layerNames == p.layerNames
  {
  }

  /** `merge_sections_except_layers` on the caller's layout dict. */
  method MergeSectionsExceptLayers(p: Payload, c: Components, normalize: Option<Json -> Json>, macroNormalize: Option<Json -> Json>)
    returns (m: SectionMerge)
    ensures m == SectionsMerged(p, c, normalize, macroNormalize)
  {
    if p.macros.None? {
      return SectionMerge(p, Some(MissingSection("macros")));
    }
    var macros := MergeMacrosInPlace(p.macros.value, c.macros, c.macroOverrides, macroNormalize);
    if macros.Err? {
      return SectionMerge(p, Some(BadMacro(macros.error)));
    }
    var layout := p.(macros := Some(macros.value));
    var holdTaps := Extended("holdTaps", layout.holdTaps, c.holdTaps, normalize);
    if holdTaps.Err? {
      return SectionMerge(layout, Some(holdTaps.error));
    }
    layout := layout.(holdTaps := holdTaps.value);
    var combos := Extended("combos", layout.combos, c.combos, normalize);
    if combos.Err? {
      return SectionMerge(layout, Some(combos.error));
    }
    layout := layout.(combos := combos.value);
    var listeners := Extended("inputListeners", layout.inputListeners, c.inputListeners, normalize);
    if listeners.Err? {
      return SectionMerge(layout, Some(listeners.error));
    }
    m := SectionMerge(layout.(inputListeners := listeners.value), None);
  }
}
