/**
 * The editor's undo/redo layer store. A `LayoutState` is an immutable
 * snapshot; `LayoutStore` holds the current snapshot, an undo stack, a redo
 * stack and a one-record clipboard for pick-up/drop of layers.
 *
 * Every layer operation is described by a `Step`: refused before anything
 * happens, a no-op, an exception raised after the undo snapshot was taken
 * (Python's `list.pop` past the end of a short `layers` tuple), or a commit
 * of a new snapshot. `Record` says what each kind of step does to the
 * store's history.
 */
module Store {
  import opened Wrappers
  import opened Json
  import opened Text
  import opened Seqs
  import opened Layout

  datatype LayerRecord = LayerRecord(name: string, slots: seq<Json>)

  datatype LayoutState = LayoutState(
    layerNames: seq<string>,
    layers: seq<LayerRecord>,
    combos: seq<Json>,
    listeners: seq<Json>)

  /** `layers[i]` is the record of `layerNames[i]` for every record there is. */
  predicate Paired(st: LayoutState) {
    && |st.layers| <= |st.layerNames|
    && forall i :: 0 <= i < |st.layers| ==> st.layers[i].name == st.layerNames[i]
  }

  /** Every name has its record, at the same position. */
  predicate Aligned(st: LayoutState) {
    Paired(st) && |st.layers| == |st.layerNames|
  }

  /** `layers[i]` is the record of `names[i]`, and there is one for every name. */
  predicate Matches(names: seq<string>, layers: seq<LayerRecord>) {
    && |names| == |layers|
    && forall i :: 0 <= i < |layers| ==> layers[i].name == names[i]
  }

  lemma MatchesRemove(names: seq<string>, layers: seq<LayerRecord>, i: nat)
    requires Matches(names, layers) && i < |names|
    ensures Matches(RemoveAt(names, i), RemoveAt(layers, i))
  {
  }

  lemma MatchesInsert(names: seq<string>, layers: seq<LayerRecord>, i: nat, rec: LayerRecord)
    requires Matches(names, layers) && i <= |names|
    ensures Matches(InsertAt(names, i, rec.name), InsertAt(layers, i, rec))
  {
  }

  /** `LayoutState.from_payload`: names zipped with the payload's layers. */
  method StateFromPayload(payload: Payload) returns (st: LayoutState)
    ensures st.layerNames == SectionOr(payload.layerNames)
    ensures |st.layers| == Min(|SectionOr(payload.layerNames)|, |SectionOr(payload.layers)|)
    ensures forall i :: 0 <= i < |st.layers| ==> st.layers[i].slots == SectionOr(payload.layers)[i]
    ensures st.combos == SectionOr(payload.combos)
    ensures st.listeners == SectionOr(payload.inputListeners)
    ensures Paired(st)
    ensures Aligned(st) <==> |SectionOr(payload.layers)| >= |SectionOr(payload.layerNames)|
  {
    var names := SectionOr(payload.layerNames);
    var slotsList := SectionOr(payload.layers);
    var records: seq<LayerRecord> := [];
    var i := 0;
    while i < |names| && i < |slotsList|
      invariant 0 <= i <= |names| && i <= |slotsList|
      invariant |records| == i
      invariant forall k :: 0 <= k < i ==> records[k] == LayerRecord(names[k], slotsList[k])
    {
      records := records + [LayerRecord(names[i], slotsList[i])];
      i := i + 1;
    }
    st := LayoutState(names, records, SectionOr(payload.combos), SectionOr(payload.inputListeners));
  }

  function Min(a: int, b: int): int { if a <= b then a else b }

  // ---------------------------------------------------------------------
  // The layer-reference walker

  /** A dict whose key set is exactly `{"name"}`: a reference to a layer. */
  predicate IsLayerRef(fields: seq<(string, Json)>) {
    |fields| == 1 && fields[0].0 == "name"
  }

  /**
   * `_rewrite_layer_refs`: every `{"name": n}` dict with `n` renamed by
   * `renames` is replaced; dicts and lists are rebuilt with their members
   * rewritten; everything else is returned as it is.
   */
  function RewriteLayerRefs(j: Json, renames: map<string, string>): Json
    decreases j, 1
  {
    match j
    case JObj(fields) =>
      if IsLayerRef(fields) then
        (match fields[0].1
         case JStr(n) => if n in renames then JObj([("name", JStr(renames[n]))]) else j
         case _ => j)
      else JObj(RewriteFields(j, fields, renames))
    case JArr(items) => JArr(RewriteItems(j, items, renames))
    case _ => j
  }

  function RewriteItems(ghost parent: Json, items: seq<Json>, renames: map<string, string>): (r: seq<Json>)
    requires forall k :: 0 <= k < |items| ==> items[k] < parent
    decreases parent, 0, |items|
    ensures |r| == |items|
    ensures forall k :: 0 <= k < |items| ==> r[k] == RewriteLayerRefs(items[k], renames)
  {
    if items == [] then []
    else [RewriteLayerRefs(items[0], renames)] + RewriteItems(parent, items[1..], renames)
  }

  function RewriteFields(ghost parent: Json, fields: seq<(string, Json)>, renames: map<string, string>)
    : (r: seq<(string, Json)>)
    requires forall k :: 0 <= k < |fields| ==> fields[k].1 < parent
    decreases parent, 0, |fields|
    ensures |r| == |fields|
    ensures forall k :: 0 <= k < |r| ==> r[k] == (fields[k].0, RewriteLayerRefs(fields[k].1, renames))
  {
    if fields == [] then []
    else [(fields[0].0, RewriteLayerRefs(fields[0].1, renames))] + RewriteFields(parent, fields[1..], renames)
  }

  /** Some `{"name": name}` dict occurs in `j`, at any depth. */
  predicate RefersTo(j: Json, name: string)
    decreases j, 1
  {
    match j
    case JObj(fields) =>
      if IsLayerRef(fields) then fields[0].1 == JStr(name) else FieldsReferTo(j, fields, name)
    case JArr(items) => ItemsReferTo(j, items, name)
    case _ => false
  }

  predicate ItemsReferTo(ghost parent: Json, items: seq<Json>, name: string)
    requires forall k :: 0 <= k < |items| ==> items[k] < parent
    decreases parent, 0, |items|
    ensures ItemsReferTo(parent, items, name) <==> exists k :: 0 <= k < |items| && RefersTo(items[k], name)
  {
    items != [] && (RefersTo(items[0], name) || ItemsReferTo(parent, items[1..], name))
  }

  predicate FieldsReferTo(ghost parent: Json, fields: seq<(string, Json)>, name: string)
    requires forall k :: 0 <= k < |fields| ==> fields[k].1 < parent
    decreases parent, 0, |fields|
    ensures FieldsReferTo(parent, fields, name) <==> exists k :: 0 <= k < |fields| && RefersTo(fields[k].1, name)
  {
    fields != [] && (RefersTo(fields[0].1, name) || FieldsReferTo(parent, fields[1..], name))
  }

  /** The walker applied to each member of a tuple of payloads. */
  function RewriteAll(s: seq<Json>, renames: map<string, string>): (r: seq<Json>)
    ensures |r| == |s|
    ensures forall i :: 0 <= i < |s| ==> r[i] == RewriteLayerRefs(s[i], renames)
  {
    seq(|s|, i requires 0 <= i < |s| => RewriteLayerRefs(s[i], renames))
  }

  /** Some member of `s` refers to layer `name`. */
  predicate AnyRefersTo(s: seq<Json>, name: string) {
    exists i :: 0 <= i < |s| && RefersTo(s[i], name)
  }

  /** Some slot, combo or listener of the snapshot refers to layer `name`. */
  predicate StateRefersTo(st: LayoutState, name: string) {
    || (exists i :: 0 <= i < |st.layers| && AnyRefersTo(st.layers[i].slots, name))
    || AnyRefersTo(st.combos, name)
    || AnyRefersTo(st.listeners, name)
  }

  /** Renaming `a` to `b` and back restores any value that had no reference to `b`. */
  lemma {:induction false} RewriteRoundTrip(j: Json, a: string, b: string)
    requires !RefersTo(j, b)
    ensures RewriteLayerRefs(RewriteLayerRefs(j, map[a := b]), map[b := a]) == j
    decreases j
  {
    var there, back := map[a := b], map[b := a];
    match j
    case JObj(fields) =>
      if IsLayerRef(fields) {
        if fields[0].1 == JStr(a) {
          assert fields == [("name", JStr(a))];
        }
      } else {
        var r1 := RewriteFields(j, fields, there);
        assert !IsLayerRef(r1);
        forall k | 0 <= k < |fields|
          ensures RewriteLayerRefs(r1[k].1, back) == fields[k].1
        {
          RewriteRoundTrip(fields[k].1, a, b);
        }
        assert RewriteFields(JObj(r1), r1, back) == fields;
      }
    case JArr(items) =>
      var r1 := RewriteItems(j, items, there);
      forall k | 0 <= k < |items|
        ensures RewriteLayerRefs(r1[k], back) == items[k]
      {
        RewriteRoundTrip(items[k], a, b);
      }
      assert RewriteItems(JArr(r1), r1, back) == items;
    case _ =>
  }

  /**
   * After renaming `a` to `b` (with `a != b`) nothing refers to `a`, a value
   * refers to `b` exactly when it referred to `a` or `b` before, and
   * references to every other layer are as they were.
   */
  lemma {:induction false} RewriteRetargets(j: Json, a: string, b: string, x: string)
    requires a != b
    ensures RefersTo(RewriteLayerRefs(j, map[a := b]), x) <==>
      if x == a then false
      else if x == b then RefersTo(j, a) || RefersTo(j, b)
      else RefersTo(j, x)
    decreases j
  {
    var there := map[a := b];
    match j
    case JObj(fields) =>
      if !IsLayerRef(fields) {
        var r1 := RewriteFields(j, fields, there);
        assert !IsLayerRef(r1);
        forall k | 0 <= k < |fields| {
          RewriteRetargets(fields[k].1, a, b, x);
        }
        if x == b {
          forall k | 0 <= k < |fields| {
            RewriteRetargets(fields[k].1, a, b, a);
          }
        }
      }
    case JArr(items) =>
      forall k | 0 <= k < |items| {
        RewriteRetargets(items[k], a, b, x);
      }
    case _ =>
  }

  // ---------------------------------------------------------------------
  // Automatic names for duplicated layers

  /** The `k`-th name `_increment_name` tries: "<base> Copy", then "<base> (2)", "<base> (3)", ... */
  function CopyCandidate(base: string, k: nat): string
    requires k >= 1
  {
    if k == 1 then base + " Copy" else base + " (" + NatToString(k) + ")"
  }

  lemma CopyCandidateInjective(base: string, k1: nat, k2: nat)
    requires k1 >= 1 && k2 >= 1 && k1 != k2
    ensures CopyCandidate(base, k1) != CopyCandidate(base, k2)
  {
    var c1, c2 := CopyCandidate(base, k1), CopyCandidate(base, k2);
    var n := |base|;
    if k1 != 1 && k2 != 1 {
      assert c1[n + 2..|c1| - 1] == NatToString(k1);
      assert c2[n + 2..|c2| - 1] == NatToString(k2);
      NatToStringInjective(k1, k2);
    } else {
      assert c1[n + 1] != c2[n + 1];
    }
  }

  /** The candidates `1 .. k-1` are `k - 1` different names. */
  lemma {:induction false} CandidatesCount(base: string, k: nat)
    requires k >= 1
    ensures |set j | 1 <= j < k :: CopyCandidate(base, j)| == k - 1
  {
    if k > 1 {
      CandidatesCount(base, k - 1);
      var below := set j | 1 <= j < k - 1 :: CopyCandidate(base, j);
      assert (set j | 1 <= j < k :: CopyCandidate(base, j)) == below + {CopyCandidate(base, k - 1)};
      forall j | 1 <= j < k - 1
        ensures CopyCandidate(base, j) != CopyCandidate(base, k - 1)
      {
        CopyCandidateInjective(base, j, k - 1);
      }
      assert CopyCandidate(base, k - 1) !in below;
    }
  }

  /** Taken names can only hold as many candidates as they have members. */
  lemma CandidatesBound(base: string, existing: set<string>, k: nat)
    requires k >= 1
    requires forall j :: 1 <= j < k ==> CopyCandidate(base, j) in existing
    ensures k - 1 <= |existing|
  {
    CandidatesCount(base, k);
    var tried := set j | 1 <= j < k :: CopyCandidate(base, j);
    assert tried <= existing;
    SubsetCard(tried, existing);
  }

  lemma SubsetCard<T>(a: set<T>, b: set<T>)
    requires a <= b
    ensures |a| <= |b|
  {
    assert b == a + (b - a);
  }

  /** The first candidate from the `k`-th on that is not taken. */
  function FirstFreeCopyName(base: string, existing: set<string>, k: nat): (r: string)
    requires k >= 1
    requires forall j :: 1 <= j < k ==> CopyCandidate(base, j) in existing
    ensures r !in existing
    ensures exists m :: (k <= m && r == CopyCandidate(base, m)
      && forall j :: 1 <= j < m ==> CopyCandidate(base, j) in existing)
    decreases |existing| + 1 - k
  {
    CandidatesBound(base, existing, k);
    if CopyCandidate(base, k) !in existing then CopyCandidate(base, k)
    else FirstFreeCopyName(base, existing, k + 1)
  }

  /**
   * The name `_increment_name(base, existing)` returns: the first of
   * "<base> Copy", "<base> (2)", "<base> (3)", ... that is not taken.
   */
  function CopyName(base: string, existing: set<string>): string {
    FirstFreeCopyName(base, existing, 1)
  }

  /** `_increment_name`: tries candidates in order until one is free. */
  method IncrementName(base: string, existing: set<string>) returns (candidate: string)
    ensures candidate == CopyName(base, existing)
    ensures candidate !in existing
  {
    var counter: nat := 2;
    candidate := base + " Copy";
    while candidate in existing
      invariant counter >= 2 && candidate == CopyCandidate(base, counter - 1)
      invariant forall j :: 1 <= j < counter - 1 ==> CopyCandidate(base, j) in existing
      invariant FirstFreeCopyName(base, existing, counter - 1) == CopyName(base, existing)
      decreases |existing| + 2 - counter
    {
      CandidatesBound(base, existing, counter);
      candidate := base + " (" + NatToString(counter) + ")";
      counter := counter + 1;
    }
  }

  /** The result is the first free candidate: every earlier one is taken. */
  lemma CopyNameIsFirstFree(base: string, existing: set<string>)
    ensures CopyName(base, existing) !in existing
    ensures exists m :: (1 <= m && CopyName(base, existing) == CopyCandidate(base, m)
      && forall j :: 1 <= j < m ==> CopyCandidate(base, j) in existing)
    ensures base + " Copy" !in existing ==> CopyName(base, existing) == base + " Copy"
  {
  }

  // ---------------------------------------------------------------------
  // Layer operations as steps on a snapshot

  /** The store's exceptions: `ValueError` for names, `IndexError` for positions. */
  datatype StoreError = UnknownLayer(name: string) | LayerExists(name: string) | IndexOutOfRange

  datatype Step =
    | Rejected(error: StoreError)            // raised while validating: nothing happens
    | NoChange                               // returns early: nothing happens
    | RaisedAfterSnapshot(error: StoreError) // raised after the undo snapshot was pushed
    | Commit(next: LayoutState)              // the new snapshot is installed

  /** The exception a step raises, if any. */
  function ErrorOf(step: Step): Option<StoreError> {
    match step
    case Rejected(e) => Some(e)
    case RaisedAfterSnapshot(e) => Some(e)
    case _ => None
  }

  function RenamedName(name: string, oldName: string, newName: string): string {
    if name == oldName then newName else name
  }

  /** A record after a rename: its own name renamed, its slots' layer references rewritten. */
  function RenamedRecord(rec: LayerRecord, oldName: string, newName: string): LayerRecord {
    LayerRecord(RenamedName(rec.name, oldName, newName), RewriteAll(rec.slots, map[oldName := newName]))
  }

  /** The snapshot `rename_layer` installs. */
  function Renamed(st: LayoutState, oldName: string, newName: string): LayoutState {
    var renames := map[oldName := newName];
    LayoutState(
      seq(|st.layerNames|, i requires 0 <= i < |st.layerNames| => RenamedName(st.layerNames[i], oldName, newName)),
      seq(|st.layers|, i requires 0 <= i < |st.layers| => RenamedRecord(st.layers[i], oldName, newName)),
      RewriteAll(st.combos, renames),
      RewriteAll(st.listeners, renames))
  }

  /** `rename_layer(old_name, new_name)`. */
  function RenameStep(st: LayoutState, oldName: string, newName: string): Step {
    if oldName == newName then NoChange
    else if oldName !in st.layerNames then Rejected(UnknownLayer(oldName))
    else if newName in st.layerNames then Rejected(LayerExists(newName))
    else Commit(Renamed(st, oldName, newName))
  }

  /** `reorder_layer(source_index, dest_index)`: pop the source, insert it at the destination. */
  function ReorderStep(st: LayoutState, source: int, dest: int): Step {
    var size := |st.layerNames|;
    if !(0 <= source < size && 0 <= dest < size) then Rejected(IndexOutOfRange)
    else if source == dest then NoChange
    else if source >= |st.layers| then RaisedAfterSnapshot(IndexOutOfRange)
    else
      Commit(LayoutState(
        InsertAt(RemoveAt(st.layerNames, source), dest, st.layerNames[source]),
        PyInsert(RemoveAt(st.layers, source), dest, st.layers[source]),
        st.combos,
        st.listeners))
  }

  /** The set of names a snapshot's layers are called. */
  function NameSet(names: seq<string>): set<string> {
    set n | n in names
  }

  /** The name `duplicate_layer` gives the copy: the requested one, or an automatic one when it is absent or empty. */
  function DuplicateName(st: LayoutState, source: string, newName: Option<string>): string {
    match newName
    case Some(n) => if n != "" then n else CopyName(source, NameSet(st.layerNames))
    case None => CopyName(source, NameSet(st.layerNames))
  }

  /** `duplicate_layer(source_name, new_name, insert_after)`. */
  function DuplicateStep(st: LayoutState, source: string, newName: Option<string>, insertAfter: bool): Step {
    if source !in st.layerNames then Rejected(UnknownLayer(source))
    else
      var name := DuplicateName(st, source, newName);
      if name in st.layerNames then Rejected(LayerExists(name))
      else
        var index := IndexOf(st.layerNames, source);
        var at := if insertAfter then index + 1 else index;
        if index >= |st.layers| then RaisedAfterSnapshot(IndexOutOfRange)
        else
          Commit(LayoutState(
            InsertAt(st.layerNames, at, name),
            PyInsert(st.layers, at, LayerRecord(name, st.layers[index].slots)),
            st.combos,
            st.listeners))
  }

  /** `pick_up_layer(name)`: the record the clipboard receives. */
  function PickUp(st: LayoutState, name: string): Result<LayerRecord, StoreError> {
    if name !in st.layerNames then Err(UnknownLayer(name))
    else
      var index := IndexOf(st.layerNames, name);
      if index >= |st.layers| then Err(IndexOutOfRange) else Ok(st.layers[index])
  }

  /** `drop_layer(target_index)` with clipboard `clip`. */
  function DropStep(st: LayoutState, clip: Option<LayerRecord>, target: int): Step {
    match clip
    case None => NoChange
    case Some(rec) =>
      if !(0 <= target <= |st.layerNames|) then Rejected(IndexOutOfRange)
      else if rec.name in st.layerNames then
        var origin := IndexOf(st.layerNames, rec.name);
        if origin >= |st.layers| then RaisedAfterSnapshot(IndexOutOfRange)
        else
          var names := RemoveAt(st.layerNames, origin);
          var at := if origin < target then target - 1 else target;
          Commit(LayoutState(
            InsertAt(names, at, rec.name),
            PyInsert(RemoveAt(st.layers, origin), at, rec),
            st.combos,
            st.listeners))
      else
        Commit(LayoutState(
          InsertAt(st.layerNames, target, rec.name),
          PyInsert(st.layers, target, rec),
          st.combos,
          st.listeners))
  }

  // ---------------------------------------------------------------------
  // Undo history

  /** The current snapshot with the undo and redo stacks (last element on top). */
  datatype History = History(current: LayoutState, undo: seq<LayoutState>, redo: seq<LayoutState>)

  /** What a step does to the history: a snapshot of the current state precedes any change. */
  function Record(h: History, step: Step): History {
    match step
    case Rejected(_) => h
    case NoChange => h
    case RaisedAfterSnapshot(_) => History(h.current, h.undo + [h.current], h.redo)
    case Commit(next) => History(next, h.undo + [h.current], [])
  }

  /** `undo()`. */
  function Undo(h: History): History {
    if h.undo == [] then h
    else History(h.undo[|h.undo| - 1], h.undo[..|h.undo| - 1], h.redo + [h.current])
  }

  /** `redo()`. */
  function Redo(h: History): History {
    if h.redo == [] then h
    else History(h.redo[|h.redo| - 1], h.undo + [h.current], h.redo[..|h.redo| - 1])
  }

  /** `k` undos in a row. */
  function UndoTimes(h: History, k: nat): History
    decreases k
  {
    if k == 0 then h else UndoTimes(Undo(h), k - 1)
  }

  /** `k` redos in a row. */
  function RedoTimes(h: History, k: nat): History {
    if k == 0 then h else Redo(RedoTimes(h, k - 1))
  }

  // ---------------------------------------------------------------------
  // What the steps promise

  /** Renaming `a` to an unused `b` and then `b` back to `a` restores the snapshot. */
  lemma RenameRoundTrip(st: LayoutState, a: string, b: string)
    requires Paired(st)
    requires a in st.layerNames && b !in st.layerNames
    requires !StateRefersTo(st, b)
    ensures RenameStep(st, a, b) == Commit(Renamed(st, a, b))
    ensures RenameStep(Renamed(st, a, b), b, a) == Commit(st)
  {
    var next := Renamed(st, a, b);
    var back := Renamed(next, b, a);
    assert next.layerNames[IndexOf(st.layerNames, a)] == b;
    assert a !in next.layerNames;
    forall i | 0 <= i < |st.layerNames|
      ensures back.layerNames[i] == st.layerNames[i]
    {}
    forall i | 0 <= i < |st.layers|
      ensures back.layers[i] == st.layers[i]
    {
      var slots := st.layers[i].slots;
      forall k | 0 <= k < |slots|
        ensures RewriteLayerRefs(RewriteLayerRefs(slots[k], map[a := b]), map[b := a]) == slots[k]
      {
        RewriteRoundTrip(slots[k], a, b);
      }
      assert back.layers[i].slots == slots;
    }
    forall k | 0 <= k < |st.combos|
      ensures back.combos[k] == st.combos[k]
    {
      RewriteRoundTrip(st.combos[k], a, b);
    }
    forall k | 0 <= k < |st.listeners|
      ensures back.listeners[k] == st.listeners[k]
    {
      RewriteRoundTrip(st.listeners[k], a, b);
    }
    assert back == st;
  }

  /** Every member of `s` retargeted as `RewriteRetargets` says. */
  lemma RewriteAllRetargets(s: seq<Json>, a: string, b: string, x: string)
    requires a != b
    ensures AnyRefersTo(RewriteAll(s, map[a := b]), x) <==>
      if x == a then false
      else if x == b then AnyRefersTo(s, a) || AnyRefersTo(s, b)
      else AnyRefersTo(s, x)
  {
    forall i | 0 <= i < |s| {
      RewriteRetargets(s[i], a, b, x);
    }
    if x == b {
      forall i | 0 <= i < |s| {
        RewriteRetargets(s[i], a, b, a);
      }
    }
  }

  /**
   * A committed rename: `a` is gone from the names, `b` takes its place,
   * every reference to `a` now points at `b`, references to other layers
   * are untouched, and names and records stay paired.
   */
  lemma RenameEffect(st: LayoutState, a: string, b: string, x: string)
    requires RenameStep(st, a, b).Commit?
    ensures var next := RenameStep(st, a, b).next;
      && |next.layerNames| == |st.layerNames| && |next.layers| == |st.layers|
      && a !in next.layerNames && b in next.layerNames
      && (forall i :: 0 <= i < |st.layerNames| && st.layerNames[i] != a ==> next.layerNames[i] == st.layerNames[i])
      && (forall i :: 0 <= i < |st.layerNames| && st.layerNames[i] == a ==> next.layerNames[i] == b)
      && (Paired(st) ==> Paired(next))
      && (Aligned(st) ==> Aligned(next))
      && (StateRefersTo(next, x) <==>
            if x == a then false
            else if x == b then StateRefersTo(st, a) || StateRefersTo(st, b)
            else StateRefersTo(st, x))
  {
    var next := Renamed(st, a, b);
    assert next.layerNames[IndexOf(st.layerNames, a)] == b;
    forall i | 0 <= i < |st.layers|
      ensures AnyRefersTo(next.layers[i].slots, x) <==>
        if x == a then false
        else if x == b then AnyRefersTo(st.layers[i].slots, a) || AnyRefersTo(st.layers[i].slots, b)
        else AnyRefersTo(st.layers[i].slots, x)
    {
      RewriteAllRetargets(st.layers[i].slots, a, b, x);
    }
    RewriteAllRetargets(st.combos, a, b, x);
    RewriteAllRetargets(st.listeners, a, b, x);
  }

  /**
   * Moving layer `source` to `dest` in an aligned snapshot commits, keeps it
   * aligned and the names a rearrangement of the old ones, and puts the
   * moved layer, record and all, at `dest`.
   */
  lemma ReorderAligned(st: LayoutState, source: nat, dest: nat)
    requires Aligned(st)
    requires source < |st.layerNames| && dest < |st.layerNames| && source != dest
    ensures ReorderStep(st, source, dest).Commit?
    ensures var next := ReorderStep(st, source, dest).next;
      && Aligned(next)
      && multiset(next.layerNames) == multiset(st.layerNames)
      && next.layerNames[dest] == st.layerNames[source]
      && next.layers[dest] == st.layers[source]
      && next.combos == st.combos && next.listeners == st.listeners
  {
    var rest := RemoveAt(st.layerNames, source);
    var restLayers := RemoveAt(st.layers, source);
    var names := InsertAt(rest, dest, st.layerNames[source]);
    var layers := InsertAt(restLayers, dest, st.layers[source]);
    assert ReorderStep(st, source, dest) == Commit(LayoutState(names, layers, st.combos, st.listeners));
    MatchesRemove(st.layerNames, st.layers, source);
    MatchesInsert(rest, restLayers, dest, st.layers[source]);
    RemoveMultiset(st.layerNames, source);
    InsertMultiset(rest, dest, st.layerNames[source]);
  }

  /**
   * Duplicating a layer of an aligned snapshot either refuses a taken name
   * or commits a snapshot with one more, aligned, layer: the new name, at
   * the source's position or just after it, carrying the source's slots.
   */
  lemma DuplicateAligned(st: LayoutState, source: string, newName: Option<string>, insertAfter: bool)
    requires Aligned(st) && source in st.layerNames
    ensures var name := DuplicateName(st, source, newName);
      var step := DuplicateStep(st, source, newName, insertAfter);
      && (name in st.layerNames <==> step == Rejected(LayerExists(name)))
      && (name !in st.layerNames ==>
            var index := IndexOf(st.layerNames, source);
            var at := if insertAfter then index + 1 else index;
            && step.Commit?
            && Aligned(step.next)
            && |step.next.layerNames| == |st.layerNames| + 1
            && step.next.layerNames[at] == name
            && step.next.layers[at] == LayerRecord(name, st.layers[index].slots)
            && (NoDup(st.layerNames) ==> NoDup(step.next.layerNames)))
  {
    var name := DuplicateName(st, source, newName);
    if name !in st.layerNames {
      var index := IndexOf(st.layerNames, source);
      var at := if insertAfter then index + 1 else index;
      var rec := LayerRecord(name, st.layers[index].slots);
      var names := InsertAt(st.layerNames, at, name);
      var layers := InsertAt(st.layers, at, rec);
      assert DuplicateStep(st, source, newName, insertAfter) == Commit(LayoutState(names, layers, st.combos, st.listeners));
      MatchesInsert(st.layerNames, st.layers, at, rec);
      if NoDup(st.layerNames) {
        NoDupInsert(st.layerNames, at, name);
      }
    }
  }

  lemma NoDupInsert(s: seq<string>, i: nat, x: string)
    requires NoDup(s) && i <= |s| && x !in s
    ensures NoDup(InsertAt(s, i, x))
  {
    var r := InsertAt(s, i, x);
    forall p, q | 0 <= p < q < |r|
      ensures r[p] != r[q]
    {
      if p == i {
        assert r[q] == s[q - 1];
      } else if q == i {
        assert r[p] == s[p];
      }
    }
  }

  /** The copy an automatic duplicate gets is always a fresh name, so it never refuses. */
  lemma DuplicateAutoNameFresh(st: LayoutState, source: string, insertAfter: bool)
    requires Aligned(st) && source in st.layerNames
    ensures DuplicateStep(st, source, None, insertAfter).Commit?
    ensures DuplicateName(st, source, None) !in st.layerNames
  {
    CopyNameIsFirstFree(source, NameSet(st.layerNames));
    DuplicateAligned(st, source, None, insertAfter);
  }

  /**
   * Dropping the clipboard into an aligned snapshot commits an aligned
   * snapshot holding the record at the target (one place earlier when it was
   * moved from before the target): a move when its name was already there,
   * one more layer otherwise.
   */
  lemma DropAligned(st: LayoutState, rec: LayerRecord, target: nat)
    requires Aligned(st) && target <= |st.layerNames|
    ensures DropStep(st, Some(rec), target).Commit?
    ensures var next := DropStep(st, Some(rec), target).next;
      && Aligned(next)
      && rec.name in next.layerNames
      && (rec.name in st.layerNames ==>
            var origin := IndexOf(st.layerNames, rec.name);
            var at := if origin < target then target - 1 else target;
            && |next.layerNames| == |st.layerNames|
            && multiset(next.layerNames) == multiset(st.layerNames)
            && next.layers[at] == rec)
      && (rec.name !in st.layerNames ==>
            && |next.layerNames| == |st.layerNames| + 1
            && next.layers[target] == rec)
  {
    if rec.name in st.layerNames {
      var origin := IndexOf(st.layerNames, rec.name);
      var at := if origin < target then target - 1 else target;
      var rest := RemoveAt(st.layerNames, origin);
      var restLayers := RemoveAt(st.layers, origin);
      var names := InsertAt(rest, at, rec.name);
      var layers := InsertAt(restLayers, at, rec);
      assert DropStep(st, Some(rec), target) == Commit(LayoutState(names, layers, st.combos, st.listeners));
      MatchesRemove(st.layerNames, st.layers, origin);
      MatchesInsert(rest, restLayers, at, rec);
      RemoveMultiset(st.layerNames, origin);
      InsertMultiset(rest, at, rec.name);
    } else {
      var names := InsertAt(st.layerNames, target, rec.name);
      var layers := InsertAt(st.layers, target, rec);
      assert DropStep(st, Some(rec), target) == Commit(LayoutState(names, layers, st.combos, st.listeners));
      MatchesInsert(st.layerNames, st.layers, target, rec);
    }
  }

  /** Picking a layer up and dropping it where it was leaves the snapshot as it was. */
  lemma PickUpDropRestores(st: LayoutState, name: string)
    requires Aligned(st) && name in st.layerNames
    ensures PickUp(st, name).Ok?
    ensures DropStep(st, Some(PickUp(st, name).value), IndexOf(st.layerNames, name)) == Commit(st)
  {
    var origin := IndexOf(st.layerNames, name);
    var rec := st.layers[origin];
    assert rec.name == name;
    assert DropStep(st, Some(rec), origin) == Commit(LayoutState(
      InsertAt(RemoveAt(st.layerNames, origin), origin, name),
      InsertAt(RemoveAt(st.layers, origin), origin, rec),
      st.combos,
      st.listeners));
    InsertRemoved(st.layerNames, origin);
    InsertRemoved(st.layers, origin);
  }

  /** Undo after a step that took a snapshot brings back the snapshot it took. */
  lemma UndoAfterStep(h: History, step: Step)
    requires step.Commit? || step.RaisedAfterSnapshot?
    ensures Undo(Record(h, step)).current == h.current
    ensures Undo(Record(h, step)).undo == h.undo
    ensures step.Commit? ==> Undo(Record(h, step)).redo == [step.next]
  {
  }

  /** Redo takes back an undo. */
  lemma RedoUndoes(h: History)
    requires h.undo != []
    ensures Redo(Undo(h)) == h
  {
    assert h.undo[..|h.undo| - 1] + [h.undo[|h.undo| - 1]] == h.undo;
  }

  /** Undo takes back a redo. */
  lemma UndoRedoes(h: History)
    requires h.redo != []
    ensures Undo(Redo(h)) == h
  {
    assert h.redo[..|h.redo| - 1] + [h.redo[|h.redo| - 1]] == h.redo;
  }

  /** `k` redos take back `k` undos, as long as there were `k` snapshots to undo. */
  lemma {:induction false} RedoTimesUndoTimes(h: History, k: nat)
    requires k <= |h.undo|
    ensures RedoTimes(UndoTimes(h, k), k) == h
    decreases k
  {
    if k > 0 {
      calc {
        RedoTimes(UndoTimes(h, k), k);
        Redo(RedoTimes(UndoTimes(h, k), k - 1));
        { assert UndoTimes(h, k) == UndoTimes(Undo(h), k - 1);
          RedoTimesUndoTimes(Undo(h), k - 1); }
        Redo(Undo(h));
        { RedoUndoes(h); }
        h;
      }
    }
  }

  // ---------------------------------------------------------------------
  // The store

  class LayoutStore {
    var state: LayoutState
    var undoStack: seq<LayoutState>
    var redoStack: seq<LayoutState>
    var clipboard: Option<LayerRecord>

    /** The store's history as a value. */
    function View(): History
      reads this
    {
      History(state, undoStack, redoStack)
    }

    constructor (initial: LayoutState)
      ensures View() == History(initial, [], [])
      ensures clipboard == None
    {
      state := initial;
      undoStack := [];
      redoStack := [];
      clipboard := None;
    }

    /** `_record_snapshot`. */
    method RecordSnapshot()
      modifies this`undoStack
      ensures undoStack == old(undoStack) + [state]
    {
      undoStack := undoStack + [state];
    }

    method RenameLayer(oldName: string, newName: string) returns (err: Option<StoreError>)
      modifies this
      ensures View() == Record(old(View()), RenameStep(old(state), oldName, newName))
      ensures err == ErrorOf(RenameStep(old(state), oldName, newName))
      ensures clipboard == old(clipboard)
    {
      if oldName == newName {
        return None;
      }
      if oldName !in state.layerNames {
        return Some(UnknownLayer(oldName));
      }
      if newName in state.layerNames {
        return Some(LayerExists(newName));
      }
      var renames := map[oldName := newName];
      var st := state;
      RecordSnapshot();
      var names := seq(|st.layerNames|, i requires 0 <= i < |st.layerNames| =>
        RenamedName(st.layerNames[i], oldName, newName));
      var layers: seq<LayerRecord> := [];
      var i := 0;
      while i < |st.layers|
        invariant 0 <= i <= |st.layers|
        invariant |layers| == i
        invariant forall k :: 0 <= k < i ==> layers[k] == RenamedRecord(st.layers[k], oldName, newName)
      {
        var updated := st.layers[i];
        if updated.name == oldName {
          updated := updated.(name := newName);
        }
        updated := updated.(slots := RewriteAll(updated.slots, renames));
        layers := layers + [updated];
        i := i + 1;
      }
      state := LayoutState(names, layers, RewriteAll(st.combos, renames), RewriteAll(st.listeners, renames));
      assert state == Renamed(st, oldName, newName);
      redoStack := [];
      err := None;
    }

    method ReorderLayer(source: int, dest: int) returns (err: Option<StoreError>)
      modifies this
      ensures View() == Record(old(View()), ReorderStep(old(state), source, dest))
      ensures err == ErrorOf(ReorderStep(old(state), source, dest))
      ensures clipboard == old(clipboard)
    {
      var size := |state.layerNames|;
      if !(0 <= source < size && 0 <= dest < size) {
        return Some(IndexOutOfRange);
      }
      if source == dest {
        return None;
      }
      RecordSnapshot();
      var names := state.layerNames;
      var moved := names[source];
      names := InsertAt(RemoveAt(names, source), dest, moved);
      var layers := state.layers;
      if source >= |layers| {
        return Some(IndexOutOfRange);
      }
      var record := layers[source];
      layers := PyInsert(RemoveAt(layers, source), dest, record);
      state := LayoutState(names, layers, state.combos, state.listeners);
      redoStack := [];
      err := None;
    }

    method DuplicateLayer(source: string, newName: Option<string>, insertAfter: bool) returns (err: Option<StoreError>)
      modifies this
      ensures View() == Record(old(View()), DuplicateStep(old(state), source, newName, insertAfter))
      ensures err == ErrorOf(DuplicateStep(old(state), source, newName, insertAfter))
      ensures clipboard == old(clipboard)
    {
      var st := state;
      if source !in st.layerNames {
        return Some(UnknownLayer(source));
      }
      var name := CopyNameFor(st, source, newName);
      if name in st.layerNames {
        return Some(LayerExists(name));
      }
      ghost var step := DuplicateStep(st, source, newName, insertAfter);
      RecordSnapshot();
      var index := IndexOf(st.layerNames, source);
      var at := if insertAfter then index + 1 else index;
      var names := InsertAt(st.layerNames, at, name);
      if index >= |st.layers| {
        assert step == RaisedAfterSnapshot(IndexOutOfRange);
        return Some(IndexOutOfRange);
      }
      var layers := PyInsert(st.layers, at, LayerRecord(name, st.layers[index].slots));
      assert step == Commit(LayoutState(names, layers, st.combos, st.listeners));
      state := LayoutState(names, layers, st.combos, st.listeners);
      redoStack := [];
      err := None;
    }

    /** The name `duplicate_layer` picks for the copy. */
    static method CopyNameFor(st: LayoutState, source: string, newName: Option<string>) returns (name: string)
      ensures name == DuplicateName(st, source, newName)
    {
      if newName.Some? && newName.value != "" {
        name := newName.value;
      } else {
        name := IncrementName(source, NameSet(st.layerNames));
      }
    }

    /** The list surgery of `drop_layer` once the target is known to be in range. */
    static method Dropped(st: LayoutState, rec: LayerRecord, target: nat) returns (r: Result<LayoutState, StoreError>)
      requires target <= |st.layerNames|
      ensures r.Err? ==> DropStep(st, Some(rec), target) == RaisedAfterSnapshot(r.error)
      ensures r.Ok? ==> DropStep(st, Some(rec), target) == Commit(r.value)
    {
      var names := st.layerNames;
      var layers := st.layers;
      var at := target;
      if rec.name in names {
        var origin := IndexOf(names, rec.name);
        names := RemoveAt(names, origin);
        if origin >= |layers| {
          return Err(IndexOutOfRange);
        }
        layers := RemoveAt(layers, origin);
        if origin < at {
          at := at - 1;
        }
      }
      names := InsertAt(names, at, rec.name);
      layers := PyInsert(layers, at, rec);
      r := Ok(LayoutState(names, layers, st.combos, st.listeners));
    }

    method PickUpLayer(name: string) returns (err: Option<StoreError>)
      modifies this`clipboard
      ensures clipboard == (match PickUp(state, name) case Ok(rec) => Some(rec) case Err(_) => old(clipboard))
      ensures err == (match PickUp(state, name) case Ok(_) => None case Err(e) => Some(e))
    {
      if name !in state.layerNames {
        return Some(UnknownLayer(name));
      }
      var index := IndexOf(state.layerNames, name);
      if index >= |state.layers| {
        return Some(IndexOutOfRange);
      }
      clipboard := Some(state.layers[index]);
      err := None;
    }

    method DropLayer(target: int) returns (err: Option<StoreError>)
      modifies this
      ensures View() == Record(old(View()), DropStep(old(state), old(clipboard), target))
      ensures err == ErrorOf(DropStep(old(state), old(clipboard), target))
      ensures clipboard == old(clipboard)
    {
      var st := state;
      if clipboard.None? {
        return None;
      }
      var rec := clipboard.value;
      if !(0 <= target <= |st.layerNames|) {
        return Some(IndexOutOfRange);
      }
      RecordSnapshot();
      var next := Dropped(st, rec, target);
      if next.Err? {
        return Some(next.error);
      }
      state := next.value;
      redoStack := [];
      err := None;
    }

    method UndoLast()
      modifies this
      ensures View() == Undo(old(View()))
      ensures clipboard == old(clipboard)
    {
      if undoStack == [] {
        return;
      }
      redoStack := redoStack + [state];
      state := undoStack[|undoStack| - 1];
      undoStack := undoStack[..|undoStack| - 1];
    }

    method RedoLast()
      modifies this
      ensures View() == Redo(old(View()))
      ensures clipboard == old(clipboard)
    {
      if redoStack == [] {
        return;
      }
      undoStack := undoStack + [state];
      state := redoStack[|redoStack| - 1];
      redoStack := redoStack[..|redoStack| - 1];
    }
  }
}
