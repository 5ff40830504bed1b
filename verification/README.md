# glove80 layout document: state and composition, in Dafny

This project models the layout-document core of the glove80 keyboard-layout
toolkit and its terminal editor.

**Undo/redo layer store.** `LayoutState` is an immutable snapshot holding:
- layer names;
- layer records, each a name plus its slots;
- combos;
- input listeners.

`LayoutStore` keeps the current snapshot, an undo stack, a redo stack and a
one-record clipboard. Rename, reorder, duplicate and pick-up/drop each
validate first, then push a snapshot, then install the new state and clear
redo. Renaming a layer rewrites every `{"name": old}` reference at any depth
in slots, combos and listeners.

**Merge engine.** The merge engine folds feature components into a layout.
It covers:
- order-keeping deduplication;
- anchored, contiguous insertion of layer names;
- the macro catalogue merge, where the first appearance fixes the position
  and the last definition wins;
- the layer and section merges;
- the `LayoutBuilder` section bookkeeping;
- the older `apply_feature`;
- the builder bridge's layer reordering and change summary;
- `assemble_layers`;
- the named-sequence materialisation of layout specs.

**Editor helpers.** These are small, self-contained pieces of the editor:
- command-id sanitising, registration and search in the command registry;
- parameter normalisation and issue counting in the validation coordinator;
- token splitting, reference counting, on-release parsing and list
  selection in the key inspector;
- result building, cursor movement, jumps and highlights in the search panel;
- pill layout, click hit-testing and wrap-around in the layer strip.

JSON-like payloads are the datatype `Json` (module `Json`): objects are
ordered key/value sequences, so dict order is explicit. The `Json` type does
not force an object's keys to be distinct; lookups take the first field with
the key, and two objects with the same fields in a different order are
different values. Keyed lists the model builds itself (`OrderedMap`) do have
distinct keys. A Python exception is an `Err` (or a `Step` for the store)
naming the exception the source raises. Python's in-place list and dict
updates become class fields the methods reassign, or functions from the old
value to the new one with a method that computes them by the same loop.
Where a method has a specifying function, its `ensures` proves it equal to
that function, and the lemmas state what the source promises about the
function. The editor widgets' methods (search panel, layer strip, validation
coordinator) and a few loops such as `Inspector.SelectedIndex` and
`Primitives.MaterializeSequence` state their results and new state directly.

Modules:
- `Wrappers`: `Option` and `Result`.
- `Json`: payload values and dict access.
- `Text`: strip, lower, split, join, title case and number formatting.
- `Seqs`: sequence helpers, deduplication and keyed lists.
- `Layout`: the layout payload with its optional sections.
- `Store`, `Merge`, `Builder`, `Features`, `Bridge`, `Common`, `Primitives`,
  `Commands`, `Validation`, `Inspector`, `Search`, `LayerStrip`: one module
  per core source file.

## Model

| member | source | states |
|---|---|---|
| Store.StateFromPayload | src/glove80/tui/state/store.py:33-45 | the snapshot keeps the payload's names, pairs each name with the payload layer at the same position up to the shorter of the two lists, copies combos and listeners, and has a record for every name exactly when the payload has at least as many layers as names |
| Store.MatchesRemove | src/glove80/tui/state/store.py:108-113 | popping the same position from the names and the records keeps every record next to its name |
| Store.MatchesInsert | src/glove80/tui/state/store.py:108-113 | inserting a record and its name at the same position keeps every record next to its name |
| Store.RewriteItems | src/glove80/tui/state/store.py:213-216 | a list or tuple is rebuilt with the same length, each item walked |
| Store.RewriteLayerRefs | src/glove80/tui/state/store.py:203-217 | definition of `_rewrite_layer_refs`: a `{"name": n}` dict with `n` in the rename map becomes `{"name": renames[n]}`, other dicts and lists are rebuilt member by member, anything else is kept; Store.RewriteRetargets and Store.RewriteRoundTrip state its effect |
| Store.RewriteFields | src/glove80/tui/state/store.py:212 | a dict that is not a bare reference keeps its keys in order, each value walked |
| Store.RewriteAll | src/glove80/tui/state/store.py:88-92 | the walker applied to every slot, combo or listener: one result per input, in order |
| Store.RewriteRoundTrip | src/glove80/tui/state/store.py:203-217 | renaming `a` to `b` and then `b` to `a` restores any value that had no reference to `b` |
| Store.RewriteRetargets | src/glove80/tui/state/store.py:203-217 | after renaming `a` to `b`, nothing refers to `a`; a value refers to `b` exactly when it referred to `a` or `b` before; references to every other layer are unchanged |
| Store.CopyCandidateInjective | src/glove80/tui/state/store.py:196-198 | the names the auto-naming loop tries ("<base> Copy", "<base> (2)", ...) are pairwise different |
| Store.CopyCandidate | src/glove80/tui/state/store.py:195-198 | definition of the `k`-th name `_increment_name` tries; Store.CopyCandidateInjective proves the candidates distinct |
| Store.CandidatesCount | src/glove80/tui/state/store.py:195-199 | the first `k - 1` candidates are `k - 1` different names |
| Store.CandidatesBound | src/glove80/tui/state/store.py:197-199 | the loop can only skip as many candidates as there are taken names, so it terminates |
| Store.FirstFreeCopyName | src/glove80/tui/state/store.py:197-200 | the candidate found from the `k`-th on is not taken, and every candidate before it is |
| Store.IncrementName | src/glove80/tui/state/store.py:194-200 | the loop returns the first free candidate, and the result is never among the taken names |
| Store.CopyNameIsFirstFree | src/glove80/tui/state/store.py:194-200 | the auto name is free, every earlier candidate is taken, and it is "<base> Copy" whenever that is free |
| Store.CopyName | src/glove80/tui/state/store.py:194-200 | definition of the name `_increment_name` returns; Store.CopyNameIsFirstFree and Store.IncrementName state that it is the first free candidate |
| Store.RewriteAllRetargets | src/glove80/tui/state/store.py:88-92 | the retargeting of `RewriteRetargets` holds for a whole tuple of slots, combos or listeners |
| Store.RenameRoundTrip | src/glove80/tui/state/store.py:73-99 | renaming an existing layer to an unused, unreferenced name commits, and renaming it back commits the original snapshot |
| Store.RenameStep | src/glove80/tui/state/store.py:73-99 | definition of `rename_layer`: an unchanged name changes nothing, an unknown old name or taken new name raise, else the renamed snapshot; Store.RenameEffect and Store.RenameRoundTrip state its effect |
| Store.RenameEffect | src/glove80/tui/state/store.py:82-98 | after a committed rename: `old` is gone and `new` is at its positions, other names are unchanged, lengths and pairing are kept, and every reference to `old` now points at `new` while references to other layers are unchanged |
| Store.ReorderAligned | src/glove80/tui/state/store.py:101-120 | moving layer `source` to `dest` in an aligned snapshot commits; the result stays aligned, its names are a permutation of the old ones, the moved name and record are both at `dest`, and combos and listeners are untouched |
| Store.ReorderStep | src/glove80/tui/state/store.py:101-120 | definition of `reorder_layer`: out-of-range indices raise, equal indices change nothing, a missing record raises after the snapshot, else pop and insert; Store.ReorderAligned states its effect |
| Store.DuplicateAligned | src/glove80/tui/state/store.py:122-142 | a taken copy name is refused (and only then); otherwise the snapshot gains one aligned layer with the copy's name and the source's slots, just after the source (or at its index), and duplicate-free names stay duplicate-free |
| Store.DuplicateStep | src/glove80/tui/state/store.py:122-142 | definition of `duplicate_layer`: unknown source or taken name raise, else the copy is inserted after or before the source; Store.DuplicateAligned and Store.DuplicateAutoNameFresh state its effect |
| Store.DuplicateAutoNameFresh | src/glove80/tui/state/store.py:125-127 | duplicating without a name never refuses: the automatic name is always fresh |
| Store.DuplicateName | src/glove80/tui/state/store.py:125-127 | definition of the copy's name: the requested one, else an automatic one; Store.DuplicateAutoNameFresh states it is fresh |
| Store.DropAligned | src/glove80/tui/state/store.py:150-173 | dropping the clipboard into an aligned snapshot commits an aligned one holding the record at the target; a record whose name was present is moved (same length, same names, target shifted down when it came from before), any other is added |
| Store.DropStep | src/glove80/tui/state/store.py:150-173 | definition of `drop_layer`: an empty clipboard changes nothing, an out-of-range target raises, a record whose name is present moves to the target, any other is inserted there; Store.DropAligned states its effect |
| Store.PickUpDropRestores | src/glove80/tui/state/store.py:144-173 | picking a layer up and dropping it at its own index commits the same snapshot |
| Store.PickUp | src/glove80/tui/state/store.py:144-148 | definition of `pick_up_layer`: an unknown name raises, else the named record; Store.PickUpDropRestores states that dropping it back restores the snapshot |
| Store.UndoAfterStep | src/glove80/tui/state/store.py:177-191 | undo after any step that pushed a snapshot brings back the snapshot and undo stack from before it; after a commit the redo stack holds exactly the undone state |
| Store.Record | src/glove80/tui/state/store.py:190-191 | definition of the history after a step: a committed step pushes the old snapshot and clears redo, a step raising after the snapshot only pushes it, a refused one changes nothing; Store.UndoAfterStep states that undo reverses it |
| Store.RedoUndoes | src/glove80/tui/state/store.py:177-187 | redo after undo restores the whole history |
| Store.Undo | src/glove80/tui/state/store.py:177-181 | definition of `undo`: nothing when the undo stack is empty, else the last snapshot comes back and the current one goes to redo; Store.RedoUndoes and Store.UndoRedoes state it inverts redo |
| Store.UndoRedoes | src/glove80/tui/state/store.py:177-187 | undo after redo restores the whole history |
| Store.Redo | src/glove80/tui/state/store.py:183-187 | definition of `redo`, the mirror of `undo`; Store.RedoUndoes and Store.UndoRedoes state the two invert each other |
| Store.RedoTimesUndoTimes | src/glove80/tui/state/store.py:177-187 | `k` redos take back `k` undos whenever there were `k` snapshots to undo |
| Store.LayoutStore.constructor | src/glove80/tui/state/store.py:51-55 | the store starts at the given snapshot with empty stacks and clipboard |
| Store.LayoutStore.RecordSnapshot | src/glove80/tui/state/store.py:190-191 | the current snapshot is pushed on the undo stack; nothing else changes |
| Store.LayoutStore.RenameLayer | src/glove80/tui/state/store.py:73-99 | the store's history becomes `Record` of the rename step (unchanged on refusal or no-op, snapshot pushed and redo cleared on commit), and the raised error is the step's |
| Store.LayoutStore.ReorderLayer | src/glove80/tui/state/store.py:101-120 | the history follows the reorder step, including the `IndexError` raised by `list.pop` after the snapshot when `layers` is shorter than `layer_names` |
| Store.LayoutStore.DuplicateLayer | src/glove80/tui/state/store.py:122-142 | the history follows the duplicate step; the clipboard is untouched |
| Store.LayoutStore.CopyNameFor | src/glove80/tui/state/store.py:125 | the copy is named `new_name` when given and non-empty, else the auto name |
| Store.LayoutStore.Dropped | src/glove80/tui/state/store.py:157-173 | the list surgery of `drop_layer` computes exactly the drop step's new snapshot, or the error it raises after the snapshot |
| Store.LayoutStore.PickUpLayer | src/glove80/tui/state/store.py:144-148 | the clipboard receives the named layer's record; an unknown name raises and leaves the clipboard and the history as they were |
| Store.LayoutStore.DropLayer | src/glove80/tui/state/store.py:150-173 | the history follows the drop step: a no-op with an empty clipboard, `IndexError` outside `0..size`, else a commit |
| Store.LayoutStore.UndoLast | src/glove80/tui/state/store.py:177-181 | the history becomes `Undo` of the old one: nothing on an empty stack, else the top snapshot is restored and the current one pushed on redo |
| Store.LayoutStore.RedoLast | src/glove80/tui/state/store.py:183-187 | the history becomes `Redo` of the old one |
| Merge.UniqueSequence | src/glove80/layouts/merge.py:13-23 | the loop with its `seen` set returns the first occurrences of the input in order (`Dedup`, whose properties `Seqs.DedupIsFirstOccurrences` and `Seqs.DedupNoDup` state) |
| Merge.WithoutMembers | src/glove80/layouts/merge.py:127 | a name survives the filter exactly when it was in the order and is not being inserted |
| Merge.InsertNamesErrors | src/glove80/layouts/merge.py:114-146 | the insert raises exactly when there is something to insert and either both anchors are given or the anchor is missing from the order or is itself being inserted; the both-anchors error exactly in the first case |
| Merge.InsertNames | src/glove80/layouts/merge.py:105-152 | definition of `insert_layer_names`' result or error; Merge.InsertNamesErrors, Merge.InsertNamesAppends, Merge.InsertNamesSplices and Merge.InsertNamesMembers state its effect |
| Merge.InsertNamesAppends | src/glove80/layouts/merge.py:121-125 | without an anchor the old order is a prefix of the new one, the names are the old ones plus the inserted ones, and no repeat is introduced |
| Merge.SplicePoint | src/glove80/layouts/merge.py:127-152 | the block position lies within the filtered order |
| Merge.InsertNamesAnchored | src/glove80/layouts/merge.py:127-152 | with one valid anchor, the result is the filtered order with the deduplicated names spliced in as one block, and the anchor lies right after the block (`before`) or right before it (`after`) |
| Merge.InsertNamesSplices | src/glove80/layouts/merge.py:127-152 | the anchored result is the filtered order split at the anchor with the block in between |
| Merge.InsertNamesAnchoredKeeps | src/glove80/layouts/merge.py:127-152 | an anchored insert keeps every old name, adds every new one, and introduces no repeat |
| Merge.InsertLayerNames | src/glove80/layouts/merge.py:105-152 | the method produces the new order, or the `ValueError` raised with the order left unchanged |
| Merge.InsertNamesMembers | src/glove80/layouts/merge.py:114-152 | any successful insert holds exactly the old names and the new ones, and keeps a repeat-free order repeat-free |
| Merge.MacroName | src/glove80/layouts/merge.py:26-45 | a name is found exactly for a dict whose `name` is a string; that string is the result |
| Merge.EnsureMacroName | src/glove80/layouts/merge.py:189-212 | only a dict can be named, and the result always has a `name` key; a dict that already carries the name is returned unchanged |
| Merge.IndexAll | src/glove80/layouts/merge.py:164-184 | a successful pass leaves a consistent catalogue: its order lists each name once, and those are exactly the keys |
| Merge.Entries | src/glove80/layouts/merge.py:175-184 | existing, appended and override macros are all indexed, in that order |
| Merge.Listing | src/glove80/layouts/merge.py:186 | the rebuilt list has one macro per ordered name |
| Merge.MergeMacros | src/glove80/layouts/merge.py:155-186 | definition of `merge_macros_in_place`'s outcome: the catalogue of all entries listed in first-appearance order, or the first error; Merge.IndexAllOrder, Merge.IndexAllLastWins, Merge.MergeIsClean and Merge.MergeIdempotent state its properties |
| Merge.NamesOf | src/glove80/layouts/merge.py:169 | one resolved name per entry |
| Merge.IndexAllSucceeds | src/glove80/layouts/merge.py:167-184 | the merge fails exactly when some entry cannot be named |
| Merge.Pairs | src/glove80/layouts/merge.py:168-170 | one resolved (name, macro) pair per entry |
| Merge.Catalogued | src/glove80/layouts/merge.py:171-173 | the catalogue holds exactly the names of its pairs |
| Merge.IndexAllCatalogued | src/glove80/layouts/merge.py:164-184 | when every entry resolves, the merge's catalogue is that of the resolved pairs |
| Merge.NamesArePairKeys | src/glove80/layouts/merge.py:169-173 | the filed names are the keys of the resolved pairs |
| Merge.CataloguedOrder | src/glove80/layouts/merge.py:171-172 | the order lists each name once, at its first occurrence |
| Merge.CataloguedLastWins | src/glove80/layouts/merge.py:173 | the macro filed under a name is the one from its last occurrence |
| Merge.CataloguedStep | src/glove80/layouts/merge.py:171-173 | one more pair files its macro over the prefix's catalogue |
| Merge.IndexAllOrder | src/glove80/layouts/merge.py:164-186 | a successful merge lists each name once, in order of first appearance across existing, appended and overrides |
| Merge.IndexAllLastWins | src/glove80/layouts/merge.py:164-186 | the macro kept under a name is the one from its last occurrence: later definitions win |
| Merge.CatalogSelfNamed | src/glove80/layouts/merge.py:169-173 | without explicit names, every catalogue entry carries its own key as its `name` |
| Merge.CleanIsFixpoint | src/glove80/layouts/merge.py:164-186 | merging a list of named, repeat-free macros with nothing returns it unchanged |
| Merge.ResolveNamed | src/glove80/layouts/merge.py:167-173 | a macro that already carries a string name is filed under that name, as itself |
| Merge.CatalogOfDistinct | src/glove80/layouts/merge.py:164-186 | when no two entries share a name, the rebuilt list holds each entry's macro, in entry order |
| Merge.MergeIsClean | src/glove80/layouts/merge.py:164-186 | a merge without overrides or transform yields named, repeat-free macros |
| Merge.MergeIdempotent | src/glove80/layouts/merge.py:164-186 | re-running the merge on its own output changes nothing |
| Merge.OverrideWins | src/glove80/layouts/merge.py:179-186 | an override under a non-empty key ends up in the merged list, named after its key, replacing whatever had that name |
| Merge.OverridesLast | src/glove80/layouts/merge.py:179-184 | override entries come after all others, each under its own key |
| Merge.CatalogExplicitWins | src/glove80/layouts/merge.py:167-186 | an explicitly named entry with no later namesake ends up, named, in the rebuilt list |
| Merge.ListingHolds | src/glove80/layouts/merge.py:186 | every catalogued macro appears in the rebuilt list |
| Merge.MergeMacrosInPlace | src/glove80/layouts/merge.py:155-186 | the three `_index` passes and the rebuild compute `MergeMacros`: the new list, or the error with `existing` untouched |
| Merge.IndexEntries | src/glove80/layouts/merge.py:167-184 | the `_index` loop computes `IndexAll`, stopping at the first failure |
| Merge.IndexAllStep | src/glove80/layouts/merge.py:167-173 | indexing one more entry is `_index` on the prefix's catalogue |
| Merge.PrefixErrorPersists | src/glove80/layouts/merge.py:167-184 | once a prefix fails, the whole merge fails with the same error |
| Merge.FirstMissing | src/glove80/layouts/merge.py:90-93 | no name is reported exactly when every ordered name has a component layer; a reported name is ordered and has none |
| Merge.WriteLayers | src/glove80/layouts/merge.py:95-99 | after the writes every ordered name maps to its (transformed) component layer, every other layer is kept, and no other key appears |
| Merge.LayersMergedConsistent | src/glove80/layouts/merge.py:86-102 | a successful merge gives each ordered name its component layer, keeps other layers, makes the order the old names plus the merged ones, keeps it repeat-free, and keeps every named layer backed by data |
| Merge.LayersMerged | src/glove80/layouts/merge.py:74-102 | definition of `merge_layers_with_order`'s outcome; Merge.LayersMergedConsistent, Merge.OwnOrderMerged and Merge.LayersMergedMissingWritesNothing state its effect |
| Merge.OwnOrderMerged | src/glove80/layouts/merge.py:89-101 | merging in the components' own order never misses a name: it fails exactly when the name insert fails, and otherwise the order is the inserted one |
| Merge.LayersMergedMissingWritesNothing | src/glove80/layouts/merge.py:89-93 | any failure leaves the order unchanged; a missing name is reported before any layer is written |
| Merge.StoreLayers | src/glove80/layouts/merge.py:95-99 | the write loop computes `WriteLayers` |
| Merge.WriteLayersStep | src/glove80/layouts/merge.py:95-99 | one more write over those of a prefix |
| Merge.MergeLayersWithOrder | src/glove80/layouts/merge.py:74-102 | the method computes the merged order, layers and raised error of `LayersMerged` |
| Merge.Normalized | src/glove80/layouts/merge.py:68-71 | one normalised value per value, in order |
| Merge.SectionsMergedEffect | src/glove80/layouts/merge.py:48-71 | the merge succeeds exactly when the macros section exists and merges and every section with values to add exists; it then holds the merged macros and each section extended verbatim by its values in order, with the layers untouched |
| Merge.SectionsMerged | src/glove80/layouts/merge.py:48-71 | definition of the corrected `merge_sections_except_layers` (macros read from `macro_overrides`); Merge.SectionsMergedEffect states its effect and Merge.SectionsAsWrittenRaise contrasts it with the code as written |
| Merge.MergeSectionsExceptLayers | src/glove80/layouts/merge.py:48-71 | the method computes `SectionsMerged` |
| Merge.SectionsMergedAsWritten | src/glove80/layouts/merge.py:57-58 | as written, the section merge always raises: a missing macros section gives `KeyError`, any other layout the `AttributeError` of `components.macros_by_name`, with the payload unchanged |
| Merge.SectionsAsWrittenRaise | src/glove80/layouts/merge.py:57-58 | on a layout with an empty macros section and an empty bundle, the merge as written raises `AttributeError` while the corrected merge succeeds and changes nothing |
| Builder.FirstMissingIndex | src/glove80/layouts/builder.py:84-87 | every name before the reported position has a layer in the mapping, and the one at it (if any) has none |
| Builder.WriteUntilMissing | src/glove80/layouts/builder.py:84-88 | the write loop stores exactly the layers of the names before the first missing one |
| Builder.LayersAddedEffect | src/glove80/layouts/builder.py:67-90 | an empty mapping changes nothing; two anchors raise with nothing changed; a missing name raises with the order unchanged but the earlier names' layers already written; success writes every ordered layer, makes the order the old names plus the ordered ones, and keeps it repeat-free; macros, hold-taps, combos and listeners never change |
| Builder.LayersAdded | src/glove80/layouts/builder.py:67-90 | definition of `add_layers`' outcome; Builder.LayersAddedEffect states its effect |
| Builder.WithoutNamed | src/glove80/layouts/builder.py:111 | the filter succeeds exactly when every existing macro has a readable name; it keeps exactly the existing macros whose names are not incoming |
| Builder.WithoutNamedClean | src/glove80/layouts/builder.py:111 | filtering a list of named, repeat-free macros keeps it repeat-free |
| Builder.HeadNameFresh | src/glove80/layouts/builder.py:110-112 | in a repeat-free macro list no later macro shares the first one's name |
| Builder.CleanTail | src/glove80/layouts/builder.py:110-112 | a repeat-free macro list stays repeat-free without its first macro |
| Builder.CleanConcat | src/glove80/layouts/builder.py:112 | two repeat-free macro lists with no name in common concatenate to a repeat-free list |
| Builder.PrependMacros | src/glove80/layouts/builder.py:107-113 | prepending yields the deduplicated incoming macros first, then only existing macros whose names are not incoming; a repeat-free layout stays repeat-free |
| Builder.MacrosAdded | src/glove80/layouts/builder.py:98-116 | definition of `add_macros`: append merges, prepend removes same-named macros and puts the new ones first; Builder.PrependMacros and Builder.KeptAfterClean state the prepend case |
| Builder.KeptAfterClean | src/glove80/layouts/builder.py:110-112 | the incoming macros followed by the existing ones they do not name form a repeat-free list |
| Builder.FeatureComponentsKeepNoDup | src/glove80/layouts/builder.py:221-243 | merging a feature bundle never puts a name twice in the layer order |
| Builder.FeatureComponentsMerged | src/glove80/layouts/builder.py:221-243 | definition of the corrected `_merge_feature_components`: the section merge, then the layer names inserted at the anchor; Builder.FeatureComponentsKeepNoDup states it keeps the order duplicate-free |
| Builder.HomeRowModsChecks | src/glove80/layouts/builder.py:182-188 | with no provider, or an unknown target layer, the call raises and nothing changes |
| Builder.HomeRowModsPlacement | src/glove80/layouts/builder.py:182-194 | once the sections merge, the bundle's layers go in as one block, in the bundle's order, right after (or right before, for `position="before"`) `insert_after`, or the target layer when no anchor is given |
| Builder.HomeRowModsAdded | src/glove80/layouts/builder.py:159-195 | definition of `add_home_row_mods`' outcome on the corrected merge; Builder.HomeRowModsChecks and Builder.HomeRowModsPlacement state its checks and placement |
| Builder.MissingLayers | src/glove80/layouts/builder.py:201 | exactly the ordered names without layer data |
| Builder.LayoutBuilder.constructor | src/glove80/layouts/builder.py:39-58 | the builder starts with the given layer order deduplicated and empty sections |
| Builder.LayoutBuilder.SetLayerOrder | src/glove80/layouts/builder.py:63-65 | the layer order becomes the deduplicated input; nothing else changes |
| Builder.LayoutBuilder.AddLayers | src/glove80/layouts/builder.py:67-90 | the sections and raised error are those of `LayersAdded`; a repeat-free order stays repeat-free |
| Builder.LayoutBuilder.UpdateLayer | src/glove80/layouts/builder.py:92-96 | an unseen name is appended to the order, and the layer's data is always overwritten; the order stays repeat-free and every ordered name keeps its data |
| Builder.LayoutBuilder.AddMacros | src/glove80/layouts/builder.py:98-116 | the macros become `MacrosAdded`, or the call raises with nothing changed |
| Builder.LayoutBuilder.AddHoldTaps | src/glove80/layouts/builder.py:118-120 | the hold-taps are extended verbatim; nothing else changes |
| Builder.LayoutBuilder.AddCombos | src/glove80/layouts/builder.py:122-124 | the combos are extended verbatim; nothing else changes |
| Builder.LayoutBuilder.AddInputListeners | src/glove80/layouts/builder.py:126-128 | the input listeners are extended verbatim; nothing else changes |
| Builder.LayoutBuilder.SetHomeRowProvider | src/glove80/layouts/builder.py:141-143 | only the home-row provider changes |
| Builder.LayoutBuilder.MergeFeatureComponents | src/glove80/layouts/builder.py:221-243 | the sections merge first, then the layers in the bundle's own order; partial merges stay, and the order stays repeat-free |
| Builder.LayoutBuilder.AddHomeRowMods | src/glove80/layouts/builder.py:159-195 | the outcome is `HomeRowModsAdded`: the provider and target are checked before the bundle is merged at `insert_after or target_layer` |
| Builder.LayoutBuilder.Build | src/glove80/layouts/builder.py:200-203 | the build proceeds exactly when every ordered layer has data; otherwise it raises listing every name that lacks it |
| Features.EnsureSection | src/glove80/features/base.py:10-17 | the section is returned exactly when present; otherwise the error names the missing key |
| Features.ExistingOrder | src/glove80/features/base.py:25 | the starting order lists the names of the existing macros that have one |
| Features.ExistingIndex | src/glove80/features/base.py:24 | the starting index files every listed name, and only those, each under its own name |
| Features.SetMacro | src/glove80/features/base.py:27-33 | a macro is filed exactly when its name is a string; otherwise `KeyError`; filing keeps every name listed and filed under itself |
| Features.SetAll | src/glove80/features/base.py:35-38 | the loop succeeds exactly when every feature macro has a string name, and keeps listing and filing consistent |
| Features.FeatureMacros | src/glove80/features/base.py:35-38 | the component macros, then the override values, in that order |
| Features.FeatureNames | src/glove80/features/base.py:28 | one name per named feature macro |
| Features.MacrosApplied | src/glove80/features/base.py:23-40 | the macros are written exactly when every feature macro is named; otherwise `KeyError` |
| Features.FeatureNamesSnoc | src/glove80/features/base.py:35-38 | the names of one more macro extend the names of the prefix |
| Features.SetAllOrder | src/glove80/features/base.py:32-33 | the order becomes the starting order, then each new name in first-mention order |
| Features.SetAllLastWins | src/glove80/features/base.py:31 | the macro filed under a name is its last mention: later macros win |
| Features.SetAllKeeps | src/glove80/features/base.py:31 | a name no feature macro mentions keeps its filed macro |
| Features.ExistingIndexLastWins | src/glove80/features/base.py:24 | among existing macros, the last one under a name is the one filed |
| Features.MacrosAppliedNames | src/glove80/features/base.py:23-40 | the written macros follow the applied order one for one, each carrying its listed name; existing names keep their places, new names follow them, and macros without a name are dropped |
| Features.MacrosAppliedFeatureWins | src/glove80/features/base.py:27-40 | the last feature macro under a name replaces every listed macro of that name |
| Features.OverrideWins | src/glove80/features/base.py:35-40 | the last override under a name wins over every component macro and existing macro of that name |
| Features.MacrosAppliedKeepsExisting | src/glove80/features/base.py:23-40 | an existing macro whose name no feature mentions stays, as the last existing macro of that name, wherever its name is listed |
| Features.FeatureApplied | src/glove80/features/base.py:20-55 | definition of `apply_feature`: macros, then the section extensions, then the layers; Features.FeatureAppliedSections and Features.FeatureAppliedLayers state its effect |
| Features.NotIndexed | src/glove80/features/base.py:50-52 | exactly the bundle names without a layer, in order, repeat-free when the names are |
| Features.FileLayers | src/glove80/features/base.py:50-53 | the order is only extended, every bundle layer is filed, old layers stay filed, and nothing else appears |
| Features.FileOne | src/glove80/features/base.py:51-53 | one pass extends the order and files the layer under its name |
| Features.NotIndexedSnoc | src/glove80/features/base.py:50-52 | the unfiled names of one more key |
| Features.FileLayersOrder | src/glove80/features/base.py:50-52 | the order gains exactly the bundle's names that had no layer, in the bundle's order |
| Features.FileLayersFiled | src/glove80/features/base.py:50-53 | every bundle layer is filed under its name; every other name keeps its layer |
| Features.FeatureAppliedSections | src/glove80/features/base.py:20-44 | a missing macros section or an unnamed feature macro raises before anything is written; a later missing section raises after the macros (and earlier sections) were written, with the layers untouched; success extends each section verbatim |
| Features.FeatureAppliedLayers | src/glove80/features/base.py:42-55 | with every section present, the run ends with the layer half on the payload the sections left |
| Features.LayersApplied | src/glove80/features/base.py:46-55 | definition of the layer half of `apply_feature`; Features.LayersAppliedAligned, Features.LayersAppliedKeeps, Features.LayersAppliedComplete and Features.LayersAppliedMissing state its effect |
| Features.LayersAppliedAligned | src/glove80/features/base.py:46-55 | after the layer half, `layer_names` has gained the unfiled bundle names in bundle order, and `layers` lines up one for one, holding the bundle's layer wherever the bundle names one |
| Features.LayersAppliedKeeps | src/glove80/features/base.py:48-55 | with distinct names, a paired name the bundle does not mention keeps its old layer at its old place |
| Features.LayersAppliedComplete | src/glove80/features/base.py:48-55 | with at least as many layers as names the layer half cannot raise, and distinct names stay distinct |
| Features.ZipIndexComplete | src/glove80/features/base.py:48 | with at least as many layers as names, every name is paired |
| Features.FileLayersAllFiled | src/glove80/features/base.py:50-55 | when every old name had a layer, every listed name has one afterwards |
| Features.LayersAppliedMissing | src/glove80/features/base.py:48-55 | the layer half raises only for an old name beyond the paired layers; `layer_names` is already extended and `layers` is left as it was |
| Features.FileLayersUnfiled | src/glove80/features/base.py:50-55 | a listed name left without a layer is an old name that had none |
| Features.ZipIndexMissing | src/glove80/features/base.py:48 | an unpaired old name lies beyond the paired layers |
| Features.SetMacros | src/glove80/features/base.py:35-38 | the `_set_macro` loops compute `SetAll` |
| Features.FileComponentLayers | src/glove80/features/base.py:50-53 | the layer loop computes `FileLayers` |
| Features.ApplyFeature | src/glove80/features/base.py:20-55 | the method leaves the payload, and raises the error, given by `FeatureApplied` |
| Bridge.Token | src/glove80/tui/services/builder_bridge.py:32-40 | each summary token is one space-free word starting with `+` |
| Bridge.AllTokensConcat | src/glove80/tui/services/builder_bridge.py:30-40 | the tokens of the five checks together are still all `+` words |
| Bridge.TokenIf | src/glove80/tui/services/builder_bridge.py:31-40 | a check contributes a token exactly when its field is non-empty or non-zero |
| Bridge.Parts | src/glove80/tui/services/builder_bridge.py:30-40 | there are no parts exactly when all five fields are empty or zero |
| Bridge.SummaryReadsBack | src/glove80/tui/services/builder_bridge.py:29-41 | the summary is "No changes" exactly when nothing is added; otherwise splitting it on spaces gives back its tokens in the fixed order L, M, HT, C, IL |
| Bridge.Summary | src/glove80/tui/services/builder_bridge.py:29-41 | definition of `FeatureDiff.summary`: the non-zero tokens joined by spaces, or "No changes"; Bridge.SummaryReadsBack states what can be read back from it |
| Bridge.PartsAreTokens | src/glove80/tui/services/builder_bridge.py:30-40 | every summary part is a `+` token |
| Bridge.NameSetMembers | src/glove80/tui/services/builder_bridge.py:171-178 | a name is collected exactly when some mapping item carries it as a string "name" |
| Bridge.NameSet | src/glove80/tui/services/builder_bridge.py:171-178 | definition of `_names`; Bridge.NameSetMembers states exactly which names it holds |
| Bridge.CollectNames | src/glove80/tui/services/builder_bridge.py:171-178 | the `_names` loop computes `NameSet` |
| Bridge.BlockAt | src/glove80/tui/services/builder_bridge.py:134-135 | the insert position lies within the remaining names |
| Bridge.PlacedOrderErrors | src/glove80/tui/services/builder_bridge.py:126-132 | placing fails exactly when the target is not a layer name or is one of the bundle's; it is "unknown target" exactly in the first case |
| Bridge.PlacedOrder | src/glove80/tui/services/builder_bridge.py:126-136 | definition of `updated_order` or the error raised; Bridge.PlacedOrderErrors, Bridge.PlacedOrderBlock and Bridge.PlacedOrderMembers state its effect |
| Bridge.PlacedOrderBlock | src/glove80/tui/services/builder_bridge.py:130-136 | the new order holds the bundle's names as one block, directly after the target (or directly before it); removing the block leaves the other names in their old relative order |
| Bridge.PlacedOrderMembers | src/glove80/tui/services/builder_bridge.py:130-136 | the new order holds exactly the old names plus the bundle's, and has no repeats when neither side has any |
| Bridge.ReorderPairs | src/glove80/tui/services/builder_bridge.py:126-139 | after a successful reorder, `layers` lines up with the new order, each entry the old layer paired with its name; with distinct names, that is the layer at the name's old place |
| Bridge.Reorder | src/glove80/tui/services/builder_bridge.py:118-139 | definition of `_reorder_layers`' outcome; Bridge.ReorderPairs, Bridge.ReorderSucceeds and Bridge.ReorderMissing state its effect |
| Bridge.ReorderSucceeds | src/glove80/tui/services/builder_bridge.py:126-139 | with a layer for every name, the bundle's names among them and a valid target, the reorder always succeeds |
| Bridge.ReorderMissing | src/glove80/tui/services/builder_bridge.py:137-139 | a missing layer raises `KeyError` only after `layer_names` was replaced; `layers` is left as it was, and the missing name lies beyond the paired layers |
| Bridge.ReorderLayers | src/glove80/tui/services/builder_bridge.py:118-139 | the method computes `Reorder` |
| Bridge.BuildDiffAdded | src/glove80/tui/services/builder_bridge.py:142-168 | the layers added are exactly the bundle's names missing from the original order; the diff of a layout against itself, for a bundle whose layers it already holds, reports no changes |
| Bridge.BuildDiff | src/glove80/tui/services/builder_bridge.py:142-168 | definition of `_build_diff`; Bridge.BuildDiffAdded states what it reports as added |
| Bridge.DryRunMatchesApply | src/glove80/tui/services/builder_bridge.py:92-112 | a dry run fails exactly when the real run does, with the same error, reports the same diff and returns the original payload; the diff's layer order is the mutated layout's |
| Bridge.HomeRowMods | src/glove80/tui/services/builder_bridge.py:92-112 | definition of `_apply_home_row_mods`' outcome; Bridge.DryRunMatchesApply states that a dry run reports the same diff and leaves the payload as it was |
| Bridge.BuilderBridge.constructor | src/glove80/tui/services/builder_bridge.py:47-54 | an empty variant becomes "windows" |
| Bridge.BuilderBridge.PreviewHomeRowMods | src/glove80/tui/services/builder_bridge.py:58-71 | the preview returns the dry run's diff or error, and the store is untouched |
| Bridge.BuilderBridge.ApplyHomeRowMods | src/glove80/tui/services/builder_bridge.py:73-88 | the store takes the merged payload only when the diff reports a change; on an error it is untouched |
| Common.AssembledEffect | src/glove80/layouts/common.py:27-36 | assembly succeeds exactly when every name has a generated layer, and then holds one layer per name, the one generated under it; otherwise it reports the first name without one |
| Common.Assembled | src/glove80/layouts/common.py:27-36 | definition of `assemble_layers`' result or error; Common.AssembledEffect states its effect |
| Common.AssembleLayers | src/glove80/layouts/common.py:27-36 | the loop computes `Assembled` |
| Common.LayerIndices | src/glove80/layouts/common.py:22 | the index map has exactly the ordered names, each mapped to a position holding it, and no later position holds it: the last position wins |
| Common.LayerIndicesDistinct | src/glove80/layouts/common.py:22 | with distinct names each name maps to its own position |
| Common.ResolveFields | src/glove80/layouts/common.py:23-24 | the layout keeps its key set |
| Common.ResolveFieldsKeeps | src/glove80/layouts/common.py:23-24 | a field that is not requested keeps its value |
| Common.ResolveFieldsEffect | src/glove80/layouts/common.py:23-24 | resolution fails exactly when a requested field is missing, naming one; when each field is requested once and all are there, each holds its resolved old value |
| Common.ResolveReferencedFields | src/glove80/layouts/common.py:14-24 | the method resolves the requested fields against the index map of the names |
| Common.ResolveEach | src/glove80/layouts/common.py:23-24 | the field loop computes `ResolveFields` |
| Common.ResolveStep | src/glove80/layouts/common.py:23-24 | one more field is resolved over the prefix's layout |
| Common.ResolveStops | src/glove80/layouts/common.py:23-24 | once a prefix stops with an error, the whole loop stops there |
| Primitives.MaterializeItem | src/glove80/specs/primitives.py:19-22 | an item without `to_dict` materialises to (a copy of) itself |
| Primitives.Materialize | src/glove80/specs/primitives.py:28-34 | `to_model()` is preferred, then `to_dict()`, else the item passes through |
| Primitives.MaterializeSequence | src/glove80/specs/primitives.py:25-35 | one result per item, in order, each materialised |
| Primitives.FirstUnknown | src/glove80/specs/primitives.py:46-50 | no name is reported exactly when every ordered name resolves; a reported name is the first that does not |
| Primitives.Chosen | src/glove80/specs/primitives.py:47 | definition of `overrides.get(name, definitions.get(name))`; Primitives.NoneOverrideFails states that an override set to `None` shadows the definition |
| Primitives.NamedSequenceEffect | src/glove80/specs/primitives.py:38-55 | the result has one entry per ordered name, in order, from the override when one is given and from the definition otherwise; it fails exactly when some name is unknown or set to `None`, naming the first |
| Primitives.NamedSequence | src/glove80/specs/primitives.py:38-55 | definition of `materialize_named_sequence`' result or error; Primitives.NamedSequenceEffect states its effect |
| Primitives.NoneOverrideFails | src/glove80/specs/primitives.py:47-50 | an override set to `None` makes the call fail even when the name is defined |
| Primitives.MaterializeNamedSequence | src/glove80/specs/primitives.py:38-55 | the loop computes `NamedSequence` |
| Primitives.FirstUnknownAt | src/glove80/specs/primitives.py:46-50 | a name that does not resolve, after names that all do, is the first unknown one |
| Layout.Zipped | src/glove80/features/base.py:48 | `dict(zip(names, layers))` holds exactly the paired names |
| Layout.ZippedPairs | src/glove80/tui/services/builder_bridge.py:137 | with distinct names each paired name finds the layer it is paired with |
| Layout.FirstUnfiled | src/glove80/features/base.py:55 | no name is reported exactly when every ordered name has a layer; a reported name has none |
| Layout.FirstUnfiledAt | src/glove80/features/base.py:55 | the first name without a layer is the one reported |
| Layout.FirstUnfiledIsFirst | src/glove80/features/base.py:55 | every name before the reported one has a layer |
| Layout.Rebuilt | src/glove80/features/base.py:55 | the rebuilt layers line up one for one with the names |
| Commands.Sanitized | src/glove80/tui/services/command_registry.py:45-46 | same length; every character becomes an id character; an id character is kept as it was and any other becomes `-` |
| Commands.SafeIdentifier | src/glove80/tui/services/command_registry.py:45-47 | the safe identifier holds only id characters and neither starts nor ends with `-`; it is empty exactly when the raw identifier has no letter, digit or `_` |
| Commands.SafeIdentifierSlice | src/glove80/tui/services/command_registry.py:45-47 | the safe identifier is, character by character, a slice of the sanitised identifier, and every character before and after that slice is `-`, so stripping removes only `-` |
| Commands.NothingKept | src/glove80/tui/services/command_registry.py:45-47 | stripping `-` from the sanitised identifier leaves nothing exactly when no character of the raw identifier is a letter, a digit or `_` |
| Commands.SanitizedDash | src/glove80/tui/services/command_registry.py:45-46 | a sanitised character is `-` exactly when the raw character is not a letter, a digit or `_` |
| Commands.SafeIdentifierPlain | src/glove80/tui/services/command_registry.py:45-47 | a raw identifier already made of id characters, not starting or ending with `-`, is kept unchanged |
| Commands.CommandId | src/glove80/tui/services/command_registry.py:43-48 | the id is never empty; it is the fallback `<namespace>-command` exactly when `<namespace>-<action>` has no letter, digit or `_`, and otherwise the safe identifier of `<namespace>-<action>`, made of id characters and neither starting nor ending with `-` |
| Commands.LowerIdChars | src/glove80/tui/services/command_registry.py:43 | lower-casing keeps id characters |
| Commands.RawIdChars | src/glove80/tui/services/command_registry.py:44 | an id-character namespace and action give an id-character raw identifier |
| Commands.CommandIdPlain | src/glove80/tui/services/command_registry.py:43-48 | for a namespace and action made of id characters, the id is exactly `<namespace>-<action>` |
| Commands.Label | src/glove80/tui/services/command_registry.py:51 | the label is the description when non-empty; otherwise each `_` of the action becomes a space and each other character is upper-cased at the start or after a non-letter and lower-cased after a letter, as `replace("_", " ").title()` does |
| Commands.MakeCommand | src/glove80/tui/services/command_registry.py:43-63 | the command carries the computed id, the binding's action and key, and the category; its description falls back to its label, and the label is non-empty for a non-empty action |
| Commands.Request | src/glove80/tui/services/command_registry.py:40-42 | a binding asks for nothing exactly when its action is empty |
| Commands.Requests | src/glove80/tui/services/command_registry.py:39-42 | one request per binding, in order |
| Commands.Registered | src/glove80/tui/services/command_registry.py:39-64 | registration keeps the registered commands as a prefix, and the seen ids grow by exactly the requested ids |
| Commands.RegisteredValid | src/glove80/tui/services/command_registry.py:49-50 | registration keeps ids distinct, and the seen ids stay exactly those of the commands |
| Commands.StepValid | src/glove80/tui/services/command_registry.py:49-64 | one step keeps the registry valid |
| Commands.Step | src/glove80/tui/services/command_registry.py:49-64 | definition of one registration step; Commands.StepValid, Commands.StepFind and Commands.FirstRegistrationWins state its effect |
| Commands.Find | src/glove80/tui/services/command_registry.py:93-97 | a found command is registered and carries the id; nothing is found exactly when no command has that id |
| Commands.FindSnoc | src/glove80/tui/services/command_registry.py:93-97 | appending a command does not change what an earlier command is found for |
| Commands.FindUnique | src/glove80/tui/services/command_registry.py:93-97 | in a valid registry an id is found exactly when it was seen, and it belongs to exactly the command `get` returns |
| Commands.StepFind | src/glove80/tui/services/command_registry.py:49-64 | one step changes the command found for an id only when it appends the first command with that id |
| Commands.NotRequested | src/glove80/tui/services/command_registry.py:49-64 | an id no request asks for is not among the requested ids |
| Commands.FirstRequestPrefix | src/glove80/tui/services/command_registry.py:39-64 | a first request stays first in any longer prefix |
| Commands.FirstRegistrationWins | src/glove80/tui/services/command_registry.py:49-64 | the first request for an unseen id is the command registered under it afterwards |
| Commands.RegisteredKeepsExisting | src/glove80/tui/services/command_registry.py:49-50 | an id the registry already held keeps its command; later requests for it are skipped |
| Commands.FirstBindingWins | src/glove80/tui/services/command_registry.py:39-64 | the first binding with a non-empty action that asks for a fresh id registers its command under that id |
| Commands.NonEmpty | src/glove80/tui/services/command_registry.py:77-88 | `filter(None, ...)` keeps exactly the non-empty parts |
| Commands.MatchesField | src/glove80/tui/services/command_registry.py:77-89 | a non-empty query found in any one lower-cased field matches the command |
| Commands.Matching | src/glove80/tui/services/command_registry.py:75-91 | the filter keeps at most the commands it is given |
| Commands.MatchingSnoc | src/glove80/tui/services/command_registry.py:76-90 | one more command is kept exactly when it matches |
| Commands.MatchingMembers | src/glove80/tui/services/command_registry.py:75-91 | exactly the matching commands are kept |
| Commands.MatchingConcat | src/glove80/tui/services/command_registry.py:75-91 | filtering keeps registration order: it distributes over concatenation |
| Commands.MatchingEmpty | src/glove80/tui/services/command_registry.py:72-74 | filtering on the empty query keeps every command, so the blank-query shortcut returns the same list |
| Commands.SearchedEffect | src/glove80/tui/services/command_registry.py:71-91 | search returns, in registration order, exactly the commands whose text holds the stripped, lower-cased query; a blank query returns them all |
| Commands.Searched | src/glove80/tui/services/command_registry.py:71-91 | definition of `search`; Commands.SearchedEffect and Commands.MatchingEmpty state its effect |
| Commands.CommandRegistry.constructor | src/glove80/tui/services/command_registry.py:27-29 | the registry starts empty |
| Commands.CommandRegistry.RegisterBindings | src/glove80/tui/services/command_registry.py:32-64 | the registry becomes `Registered` over the bindings' requests and stays valid |
| Commands.CommandRegistry.Add | src/glove80/tui/services/command_registry.py:49-64 | one loop iteration performs one `Step` |
| Commands.CommandRegistry.AllCommands | src/glove80/tui/services/command_registry.py:67-69 | the registered commands in registration order |
| Commands.CommandRegistry.Search | src/glove80/tui/services/command_registry.py:71-91 | the loop computes `Searched` |
| Commands.CommandRegistry.Get | src/glove80/tui/services/command_registry.py:93-97 | the scan returns the first command with the id, or nothing |
| Validation.GetBelow | src/glove80/tui/services/validation_coordinator.py:122-130 | a value read from a dict is structurally smaller than the dict, so the recursion through `params` terminates |
| Validation.NormalizeParams | src/glove80/tui/services/validation_coordinator.py:113-132 | the recursive method with its `extend` loop computes `Normalized`: `None` gives nothing, lists are flattened item by item in order, a dict stands for its string "value", else `{"name": name}`, else its non-`None` "params", else itself, and any other value stands for itself |
| Validation.Normalized | src/glove80/tui/services/validation_coordinator.py:113-132 | definition of `_normalize_params`; Validation.NormalizedFlat and Validation.NormalizedIdempotent state its properties |
| Validation.NormalizedFlat | src/glove80/tui/services/validation_coordinator.py:113-132 | the normalised list holds no `None`, no nested list and no dict that would normalise further |
| Validation.NormalizedItemsFlat | src/glove80/tui/services/validation_coordinator.py:116-120 | the flattened items of a list are all flat |
| Validation.FlatConcat | src/glove80/tui/services/validation_coordinator.py:119 | extending one flat list by another gives a flat list |
| Validation.FlatFixed | src/glove80/tui/services/validation_coordinator.py:121-132 | a flat value normalises to itself alone |
| Validation.FlatListFixed | src/glove80/tui/services/validation_coordinator.py:116-120 | a list of flat values normalises to itself |
| Validation.FlatItemsFixed | src/glove80/tui/services/validation_coordinator.py:116-120 | flattening flat items changes nothing |
| Validation.NormalizedIdempotent | src/glove80/tui/services/validation_coordinator.py:113-132 | normalising twice is normalising once |
| Validation.NormalizedConcat | src/glove80/tui/services/validation_coordinator.py:116-120 | flattening distributes over joining two parameter lists |
| Validation.NormalizedItemsParent | src/glove80/tui/services/validation_coordinator.py:116-120 | the result of flattening a list does not depend on the value it was found in |
| Validation.RunSummary | src/glove80/tui/services/validation_coordinator.py:96-97 | a run's summary is consistent, valid exactly when there are neither collected nor manual issues, and counts at least the manual ones |
| Validation.ManualCount | src/glove80/tui/services/validation_coordinator.py:76 | the manual count is the reported count when positive, else 1: never below 1 |
| Validation.ValidationCoordinator.constructor | src/glove80/tui/services/validation_coordinator.py:25-38 | a negative debounce counts as zero; nothing is pending, no manual issues, and the cached summary is valid with no issues |
| Validation.ValidationCoordinator.BeginDebouncedValidation | src/glove80/tui/services/validation_coordinator.py:44-48 | a timer is armed (replacing any armed one); nothing else changes |
| Validation.ValidationCoordinator.Cancel | src/glove80/tui/services/validation_coordinator.py:50-56 | neither timer nor task stays pending; nothing else changes |
| Validation.ValidationCoordinator.PublishLastSummary | src/glove80/tui/services/validation_coordinator.py:63-71 | the cached summary is posted again; nothing else changes |
| Validation.ValidationCoordinator.PublishSummary | src/glove80/tui/services/validation_coordinator.py:134-141 | the summary becomes the cached one and is posted |
| Validation.ValidationCoordinator.RecordManualIssues | src/glove80/tui/services/validation_coordinator.py:73-78 | the manual count becomes max(n, 1) and an invalid summary with that count is cached and posted |
| Validation.ValidationCoordinator.ClearManualIssues | src/glove80/tui/services/validation_coordinator.py:80-85 | with no manual issues nothing changes; otherwise the count is reset to 0 and a validation pass is started |
| Validation.ValidationCoordinator.ScheduleValidation | src/glove80/tui/services/validation_coordinator.py:87-91 | the timer is cleared and a pass is pending, whether it was already running or newly started |
| Validation.ValidationCoordinator.RunValidation | src/glove80/tui/services/validation_coordinator.py:93-99 | the total is the collected issues plus the manual count, the summary is valid exactly when the total is zero, and it is cached and posted |
| Validation.ValidationCoordinator.ValidateNow | src/glove80/tui/services/validation_coordinator.py:58-61 | pending work is cancelled and a pass runs at once, with the summary of `RunValidation` |
| Validation.ManualIssuesKeepInvalid | src/glove80/tui/services/validation_coordinator.py:76-97 | while a form reports issues, no validation pass can call the layout valid |
| Inspector.SplitValueTokensEffect | src/glove80/tui/widgets/inspector.py:362-369 | with parameters, the value is a `&` behavior and it plus the parameters are exactly the field's words; without, the value is the whole stripped field (empty for a blank one) |
| Inspector.SplitValueTokens | src/glove80/tui/widgets/inspector.py:361-369 | definition of `_split_value_tokens`; Inspector.SplitValueTokensEffect and Inspector.InlineParamsRoundTrip state its effect |
| Inspector.InlineParamsRoundTrip | src/glove80/tui/widgets/inspector.py:362-369 | a `&` behavior written with its parameters, separated by single spaces, splits back into the behavior and those parameters |
| Inspector.InlineParams | src/glove80/tui/widgets/inspector.py:1437 | definition of the inline-parameter test of `_display_tokens`; Inspector.DisplayInlineRoundTrip states its round trip |
| Inspector.ParamTokens | src/glove80/tui/widgets/inspector.py:1443-1452 | one token per parameter, in order |
| Inspector.ParamToken | src/glove80/tui/widgets/inspector.py:1444-1452 | definition of one parameter's display token; Inspector.ParamTokens states the token list it builds |
| Inspector.DisplayTokensOf | src/glove80/tui/widgets/inspector.py:1433-1453 | a value holding its own parameters is split on whitespace into the first word and the rest; otherwise the value is shown whole, with one token per entry of a parameter list and none for anything else, a string included |
| Inspector.DisplayTokens | src/glove80/tui/widgets/inspector.py:1433-1453 | the token loop computes `DisplayTokensOf` |
| Inspector.DisplayInlineRoundTrip | src/glove80/tui/widgets/inspector.py:1437-1439 | a key whose value carries its parameters inline, with no parameter list, is displayed as the behavior and those parameters, exactly as the form splits them |
| Inspector.InlineText | src/glove80/tui/widgets/inspector.py:1437 | a `&` behavior followed by its parameters passes the inline test and splits into its words |
| Inspector.WordsFront | src/glove80/tui/widgets/inspector.py:1438 | words joined by single spaces split back into the same words |
| Inspector.SpaceBetween | src/glove80/tui/widgets/inspector.py:1437 | a `&` word, a space and more text start with `&` and hold a space |
| Inspector.DisplayParamList | src/glove80/tui/widgets/inspector.py:1441-1453 | a key with a non-empty parameter list shows its value whole and one token per parameter, each read from its "value", else its "name", else its JSON text |
| Inspector.ReferenceCount | src/glove80/tui/widgets/inspector.py:1456-1457 | the count is zero exactly when every reference list is empty, and is at least the length of each list |
| Inspector.ReferenceCountConcat | src/glove80/tui/widgets/inspector.py:1456-1457 | the count of two groups of reference kinds together is the sum of their counts |
| Inspector.OnReleaseReload | src/glove80/tui/widgets/inspector.py:1424-1428 | the field loading writes ("true" for a set flag, blank otherwise, line 1327) saves back a set flag, but leaves a cleared one out of the payload |
| Inspector.OnRelease | src/glove80/tui/widgets/inspector.py:1424-1428 | definition of the "on release" field's reading: stripped and lower-cased, four words set the flag, four clear it, anything else leaves it out; Inspector.OnReleaseReload states how it reads what a load writes |
| Inspector.OnReleaseText | src/glove80/tui/widgets/inspector.py:1327 | definition of the text a hold-tap load writes into the field; Inspector.OnReleaseReload states that a set flag reads back as set and a cleared one is dropped |
| Inspector.TargetName | src/glove80/tui/widgets/inspector.py:622 | the preferred name when listed, else the first name, else none; a chosen name is always listed |
| Inspector.SelectedIndex | src/glove80/tui/widgets/inspector.py:618-635 | no index for an empty list; otherwise an in-range index: the first position holding the target name, or 0 when that name is empty |
| Inspector.IndexOfFirst | src/glove80/tui/widgets/inspector.py:631-634 | the scan's first matching position is the name's index |
| Inspector.PreferredSelected | src/glove80/tui/widgets/inspector.py:622-635 | a preferred macro listed under a non-empty name is the one selected |
| Search.TenTo | src/glove80/tui/widgets/search_panel.py:128 | a power of ten is at least one |
| Search.Zeros | src/glove80/tui/widgets/search_panel.py:128 | exactly `k` zero digits |
| Search.DigitCount | src/glove80/tui/widgets/search_panel.py:128 | a number has at most `e` decimal digits exactly when it is below ten to the `e` |
| Search.ZeroPaddedDigits | src/glove80/tui/widgets/search_panel.py:128 | the `02d` key number is its decimal digits, left-padded with zeros up to the width and never cut |
| Search.KeyLabel | src/glove80/tui/widgets/search_panel.py:129 | definition of a key result's label; Search.ZeroPaddedDigits states its key number |
| Search.SlotHitsSound | src/glove80/tui/widgets/search_panel.py:124-137 | every hit on a layer is a matching slot below the bound, labelled as a key result, and the hits are in strictly increasing key order |
| Search.SlotMatches | src/glove80/tui/widgets/search_panel.py:126-128 | definition of a key match: the needle in the lower-cased value or parameter text; Search.KeyHitsSound and Search.KeyHitsComplete are stated with it |
| Search.SlotResultsSnoc | src/glove80/tui/widgets/search_panel.py:124-137 | scanning one more slot keeps the hits sound and ordered |
| Search.SlotHitsComplete | src/glove80/tui/widgets/search_panel.py:124-137 | every matching slot below the bound is among the hits |
| Search.KeyHitsSound | src/glove80/tui/widgets/search_panel.py:121-138 | every key hit names an existing, matching slot of an existing layer, and the hits are ordered by layer and then key |
| Search.KeyHits | src/glove80/tui/widgets/search_panel.py:121-138 | definition of `_find_keys`' results; Search.KeyHitsSound and Search.KeyHitsComplete state that they are exactly the matching slots in order |
| Search.KeyResultsConcat | src/glove80/tui/widgets/search_panel.py:121-138 | one more layer's sound hits, appended, keep the key hits sound and ordered |
| Search.KeyHitsComplete | src/glove80/tui/widgets/search_panel.py:121-138 | every matching slot of a scanned layer is among the key hits |
| Search.FindKeys | src/glove80/tui/widgets/search_panel.py:121-138 | the nested scan over layers and slots computes the key hits of every layer |
| Search.KeyHitsNext | src/glove80/tui/widgets/search_panel.py:123 | the hits of one more layer are the earlier hits followed by that layer's |
| Search.SlotHitsNext | src/glove80/tui/widgets/search_panel.py:124 | the hits of one more slot are the earlier hits followed by that slot's |
| Search.FindSlots | src/glove80/tui/widgets/search_panel.py:124-137 | the inner slot scan computes that layer's hits |
| Search.ReferenceLocation | src/glove80/tui/widgets/search_panel.py:186-195 | the first key reference when there is one; otherwise the selection, with negative coordinates raised to 0 |
| Search.NamedHit | src/glove80/tui/widgets/search_panel.py:140-184 | an item is a hit exactly when it has a name and the lower-cased name plus description contains the needle; a hit has the catalogue's kind and carries the name under the catalogue's tag |
| Search.Collected | src/glove80/tui/widgets/search_panel.py:142-161 | no more hits than items scanned |
| Search.CollectedNext | src/glove80/tui/widgets/search_panel.py:142-160 | scanning one more item appends its hit, if any |
| Search.CollectedExact | src/glove80/tui/widgets/search_panel.py:142-161 | the collected hits are exactly the hits of the scanned items: each comes from an item, and each item's hit is collected |
| Search.NamedHitsKind | src/glove80/tui/widgets/search_panel.py:140-184 | every macro or listener result has its catalogue's kind and a single metadata entry under its tag |
| Search.FindNamed | src/glove80/tui/widgets/search_panel.py:140-184 | the macro and listener loops compute `Collected` over the whole catalogue |
| Search.Needle | src/glove80/tui/widgets/search_panel.py:112 | the needle is as long as the stripped query |
| Search.BuildResultsGrouped | src/glove80/tui/widgets/search_panel.py:111-119 | a blank query finds nothing; otherwise every key result comes before every macro result, which comes before every listener result |
| Search.BuildResults | src/glove80/tui/widgets/search_panel.py:111-119 | definition of `_build_results`; Search.BuildResultsGrouped and Search.HighlightsOfSearch state its properties |
| Search.GroupedConcat | src/glove80/tui/widgets/search_panel.py:116-118 | three runs of one kind each, concatenated, are grouped in that order |
| Search.HighlightConcat | src/glove80/tui/widgets/search_panel.py:218-221 | the highlights of concatenated results are the concatenated highlights |
| Search.HighlightIndices | src/glove80/tui/widgets/search_panel.py:218-221 | definition of the broadcast indices; Search.HighlightMember and Search.HighlightIncreasing state which they are and their order |
| Search.ActiveLayer | src/glove80/tui/widgets/search_panel.py:219 | definition of `max(layer_index, 0)`; Search.HighlightsOfSearch is stated on it |
| Search.HighlightNone | src/glove80/tui/widgets/search_panel.py:220 | results that are not key results highlight nothing |
| Search.HighlightMember | src/glove80/tui/widgets/search_panel.py:218-221 | a key is highlighted exactly when some key result points at it on the active layer |
| Search.HighlightIncreasing | src/glove80/tui/widgets/search_panel.py:218-221 | ordered results give strictly increasing highlighted keys |
| Search.KeyHighlights | src/glove80/tui/widgets/search_panel.py:121-138 | a key is highlighted among the key hits exactly when the active layer exists and that key's slot matches |
| Search.SearchHighlightsKeys | src/glove80/tui/widgets/search_panel.py:99-102 | the highlights of a search are those of its key hits alone |
| Search.HighlightsOfSearch | src/glove80/tui/widgets/search_panel.py:99-102 | for a non-blank query, the highlighted keys are exactly the matching slots of the active layer, in strictly increasing order |
| Search.SetDefault | src/glove80/tui/widgets/search_panel.py:203-207 | the key is afterwards present, and metadata that already had it is unchanged |
| Search.JumpMetadata | src/glove80/tui/widgets/search_panel.py:203-207 | a macro jump always carries a "macro" entry and a listener jump a "listener" entry |
| Search.JumpMessage | src/glove80/tui/widgets/search_panel.py:208-215 | the jump request names the result's layer, key and kind |
| Search.Clamp | src/glove80/tui/widgets/search_panel.py:200 | an in-range index is kept, a negative one becomes 0 and a too-large one the last index |
| Search.SearchPanel.constructor | src/glove80/tui/widgets/search_panel.py:38-46 | a new panel is hidden, with no results, no cursor and nothing posted |
| Search.SearchPanel.Open | src/glove80/tui/widgets/search_panel.py:53-64 | the panel is shown with no results, no cursor and the prompt, and the active layer's highlights are cleared |
| Search.SearchPanel.Close | src/glove80/tui/widgets/search_panel.py:66-75 | closing a hidden panel changes nothing; closing a visible one drops the results and cursor, clears the highlights and announces the close |
| Search.SearchPanel.InputChanged | src/glove80/tui/widgets/search_panel.py:96-102 | the results become those of the new query, the cursor is reset, the status counts the matches and the matches are highlighted |
| Search.SearchPanel.Jump | src/glove80/tui/widgets/search_panel.py:197-216 | nothing happens without results; otherwise the clamped index becomes the cursor, a jump to that result is requested and the status names it |
| Search.SearchPanel.ActionJump | src/glove80/tui/widgets/search_panel.py:80-81 | Enter jumps to the cursor, or to the first result before any jump |
| Search.SearchPanel.NextResult | src/glove80/tui/widgets/search_panel.py:84-88 | nothing happens without results; otherwise the cursor moves by the step, wrapping around, and the new result is jumped to |
| Search.Wrapped | src/glove80/tui/widgets/search_panel.py:87 | Python's modulo by a positive count always gives a valid result index |
| Search.ForwardThenBack | src/glove80/tui/widgets/search_panel.py:84-88 | F3 then Shift+F3 returns to the same result |
| Search.WrapsAtEnds | src/glove80/tui/widgets/search_panel.py:84-88 | F3 on the last result goes to the first, and Shift+F3 on the first goes to the last |
| Search.SteppingFromNoCursor | src/glove80/tui/widgets/search_panel.py:84-88 | before any jump, F3 goes to the first result and Shift+F3 to the second-last (the only one, if there is just one) |
| LayerStrip.Pill | src/glove80/tui/widgets/layer_strip.py:53-55 | the pill is the name in brackets, with a star in the slot after the name for the active layer and a space otherwise |
| LayerStrip.Segments | src/glove80/tui/widgets/layer_strip.py:42-49 | one segment per layer rendered |
| LayerStrip.Stepped | src/glove80/tui/widgets/layer_strip.py:58-68 | stepping by one, from the selection or from 0 when nothing is selected, always lands on an existing layer |
| LayerStrip.SegmentsShape | src/glove80/tui/widgets/layer_strip.py:42-49 | segment i is layer i and spans its pill, starting where the text of the earlier pills and spacers ends |
| LayerStrip.PillsPrefix | src/glove80/tui/widgets/layer_strip.py:42-49 | the text of fewer pills is a prefix of the text of more |
| LayerStrip.Pills | src/glove80/tui/widgets/layer_strip.py:42-49 | definition of the pill text; LayerStrip.PillsPrefix and LayerStrip.SegmentSpansPill relate it to the segments |
| LayerStrip.SegmentInPills | src/glove80/tui/widgets/layer_strip.py:42-49 | each segment marks exactly the characters of its layer's pill in the rendered pills |
| LayerStrip.SegmentSpansPill | src/glove80/tui/widgets/layer_strip.py:37-51 | in the rendered strip, segment i covers exactly pill i, and the star marks the selected layer alone |
| LayerStrip.SegmentsApart | src/glove80/tui/widgets/layer_strip.py:45-49 | the first segment starts at 0, and consecutive segments are separated by the two-space spacer |
| LayerStrip.SegmentBefore | src/glove80/tui/widgets/layer_strip.py:42-49 | a segment ends before every later segment starts, so segments never overlap |
| LayerStrip.HitFirst | src/glove80/tui/widgets/layer_strip.py:76-79 | the scan reports the first segment holding the click column |
| LayerStrip.HitSegment | src/glove80/tui/widgets/layer_strip.py:76-79 | definition of the click lookup; LayerStrip.HitFirst, LayerStrip.MissNoHit and LayerStrip.ClickSelectsPill state its result |
| LayerStrip.ClickSelectsPill | src/glove80/tui/widgets/layer_strip.py:70-79 | a click inside pill i selects layer i |
| LayerStrip.MissNoHit | src/glove80/tui/widgets/layer_strip.py:76-79 | a click outside every segment selects nothing |
| LayerStrip.NextThenPrev | src/glove80/tui/widgets/layer_strip.py:58-68 | the right arrow and then the left arrow return to the selected layer |
| LayerStrip.SteppingFromNothing | src/glove80/tui/widgets/layer_strip.py:58-68 | with nothing selected, the right arrow goes to layer 1 (layer 0 when there is only one) and the left arrow to the last layer |
| LayerStrip.LayerStrip.constructor | src/glove80/tui/widgets/layer_strip.py:31-34 | a new strip has no segments and has activated nothing |
| LayerStrip.LayerStrip.Render | src/glove80/tui/widgets/layer_strip.py:37-51 | the strip's text is the rendered pills and footer, and the recorded segments are those of the layers drawn, nothing else changing |
| LayerStrip.RenderedText | src/glove80/tui/widgets/layer_strip.py:37-51 | definition of `render`'s text: every pill and spacer, then the footer; LayerStrip.LayerStrip.Render states it |
| LayerStrip.LayerStrip.Activate | src/glove80/tui/widgets/layer_strip.py:81-87 | without layers nothing happens; otherwise the index, wrapped to the layer count, is activated and an update is announced |
| LayerStrip.LayerStrip.PrevLayer | src/glove80/tui/widgets/layer_strip.py:58-62 | without layers nothing happens; otherwise the previous layer, wrapping around, is activated |
| LayerStrip.LayerStrip.NextLayer | src/glove80/tui/widgets/layer_strip.py:64-68 | without layers nothing happens; otherwise the next layer, wrapping around, is activated |
| LayerStrip.LayerStrip.OnMouseUp | src/glove80/tui/widgets/layer_strip.py:70-79 | a left click on a pill activates that pill's layer; any other button, a missing offset or a click between pills activates nothing |
| Text.Lower | src/glove80/tui/services/command_registry.py:72 | `str.lower` on ASCII: same length, each ASCII capital lowered, every other character kept |
| Text.StripLeft | src/glove80/tui/services/command_registry.py:72 | `str.lstrip()`: the result is a suffix of the input that does not start with whitespace |
| Text.StripLeftRemoves | src/glove80/tui/services/command_registry.py:72 | every character `str.lstrip()` removes is whitespace |
| Text.StripRight | src/glove80/tui/services/command_registry.py:72 | `str.rstrip()`: the result is a prefix of the input that does not end with whitespace |
| Text.StripRightRemoves | src/glove80/tui/services/command_registry.py:72 | every character `str.rstrip()` removes is whitespace |
| Text.Strip | src/glove80/tui/services/command_registry.py:72 | `str.strip()`: the result neither starts nor ends with whitespace |
| Text.StripSlice | src/glove80/tui/services/command_registry.py:72 | `str.strip()` keeps, character by character, a slice of the input, and every character before and after that slice is whitespace |
| Text.IsSpace | src/glove80/tui/services/command_registry.py:72 | definition of Python's `str.isspace` on one character: tab to carriage return, the four separators U+001C to U+001F, space, U+0085, U+00A0, U+1680, U+2000 to U+200A, U+2028, U+2029, U+202F, U+205F and U+3000; Text.StripLeft, Text.StripRight, Text.Strip and the lemmas about them are stated with it |
| Text.StripChar | src/glove80/tui/services/command_registry.py:47 | `strip("-")`: the result neither starts nor ends with the character, and a string already free of it at both ends is unchanged |
| Text.StripCharSlice | src/glove80/tui/services/command_registry.py:47 | `strip("-")` keeps, character by character, a slice of the input, and every character before and after that slice is the stripped character |
| Text.StripCharEmpty | src/glove80/tui/services/command_registry.py:47 | stripping a character leaves nothing exactly when every character is that character |
| Text.StripCharKeeps | src/glove80/tui/services/command_registry.py:45-47 | stripping a character keeps every property all the characters had |
| Text.StripCharLeft | src/glove80/tui/services/command_registry.py:47 | the result is a suffix that does not start with the character |
| Text.StripCharLeftRemoves | src/glove80/tui/services/command_registry.py:47 | every character `lstrip` of one character removes is that character |
| Text.StripCharRight | src/glove80/tui/services/command_registry.py:47 | the result is a prefix that does not end with the character |
| Text.StripCharRightRemoves | src/glove80/tui/services/command_registry.py:47 | every character `rstrip` of one character removes is that character |
| Text.ReplaceChar | src/glove80/tui/services/command_registry.py:51 | `str.replace` of one character: every occurrence is replaced and nothing else changes |
| Text.TitleAfter | src/glove80/tui/services/command_registry.py:51 | `str.title` on ASCII: same length, the same characters are letters, and each character is upper-cased at the start (unless a letter precedes) or after a non-letter, and lower-cased after a letter |
| Text.TitleAfterIdempotent | src/glove80/tui/services/command_registry.py:51 | title-casing twice is title-casing once |
| Text.NoSpaceAll | src/glove80/tui/widgets/inspector.py:366 | a word has no space exactly when none of its characters is whitespace |
| Text.WordOfPrefix | src/glove80/tui/widgets/inspector.py:366 | the first word of a word followed by a space and more text is that word |
| Text.SplitSpace | src/glove80/tui/widgets/inspector.py:366 | a leading space does not change `str.split()` |
| Text.SplitWord | src/glove80/tui/widgets/inspector.py:366 | a single word splits into itself |
| Text.SplitWordThen | src/glove80/tui/widgets/inspector.py:366 | a word, a space and more text split into that word followed by the text's words |
| Text.SplitJoin | src/glove80/tui/widgets/inspector.py:366 | words joined by single spaces split back into the same words |
| Text.SplitJoinFront | src/glove80/tui/widgets/inspector.py:366 | a word in front of more words, joined by spaces, splits back into them |
| Text.JoinStartsWithFirst | src/glove80/tui/widgets/inspector.py:366 | a join of words starts with the first word's first character |
| Text.JoinFront | src/glove80/tui/widgets/inspector.py:366 | joining a word in front of more words puts that word and a space in front of their join |
| Text.JoinEndsWithLast | src/glove80/tui/widgets/inspector.py:363 | a join of words ends with the last word's last character |
| Text.JoinOfWordsStripped | src/glove80/tui/widgets/inspector.py:363 | words joined by single spaces are already stripped |
| Text.JoinBetweenWordsStripped | src/glove80/tui/widgets/inspector.py:363 | parts whose first and last are words join by single spaces into a string that is its own strip |
| Text.WordEndsNotSpace | src/glove80/tui/widgets/inspector.py:363 | a word neither starts nor ends with whitespace |
| Text.StrippedAlready | src/glove80/tui/widgets/inspector.py:1424 | text with no whitespace at either end is unchanged by `strip` |
| Text.LowerAlready | src/glove80/tui/widgets/inspector.py:1424 | text without capitals is unchanged by `lower` |
| Text.SplitWords | src/glove80/tui/widgets/inspector.py:366 | every piece `str.split()` returns is a non-empty word without whitespace |
| Text.WordNoSpace | src/glove80/tui/widgets/inspector.py:366 | the first word holds no whitespace |
| Text.SplitFront | src/glove80/tui/widgets/inspector.py:366 | text that is not all whitespace splits into its first word and the rest |
| Text.Split | src/glove80/tui/widgets/inspector.py:366 | definition of `str.split()`: the maximal runs of non-whitespace characters in order; Text.SplitWords, Text.SplitJoin and Text.SplitFront state its properties |
| Text.ContainsJoinPart | src/glove80/tui/services/command_registry.py:77-87 | a needle inside one part is inside the joined haystack |
| Text.NatToString | src/glove80/tui/widgets/search_panel.py:101 | the decimal text of a number is non-empty, all digits, and a single digit exactly below ten |
| Text.IntToString | src/glove80/tui/services/builder_bridge.py:38-40 | the text of an integer count is non-empty and made of digits and a sign |
| Json.Truthy | src/glove80/tui/widgets/inspector.py:1437 | definition of Python truthiness: `None`, `False`, zero and empty strings, lists and dicts are false; Inspector.OnReleaseReload and Inspector.InlineParams are stated with it |
| Json.PyStr | src/glove80/tui/widgets/search_panel.py:126-127 | definition of `str()` of a payload value: a string is itself, anything else its `repr`; Search.SlotMatches and Inspector.ParamToken are stated with it |
| Json.Repr | src/glove80/tui/widgets/search_panel.py:127 | definition of `repr()` of a payload value: `None`, `True`, `False`, decimal integers, strings in single quotes, and lists and dicts with Python's brackets and `, ` and `: ` separators |
| Json.Dumps | src/glove80/tui/widgets/inspector.py:1450 | definition of `json.dumps` with its default separators; Inspector.ParamToken uses it for a dict without "value" or "name" |
| Text.NatToStringInjective | src/glove80/tui/state/store.py:198 | different numbers have different decimal texts |
| Seqs.IndexOf | src/glove80/tui/state/store.py:108-113 | the index of a member is its first position |
| Seqs.InsertAt | src/glove80/tui/state/store.py:110 | `list.insert`: one element longer, the element at the position and the rest shifted up by one |
| Seqs.RemoveAt | src/glove80/tui/state/store.py:109 | `list.pop` at a position: one element shorter, the later elements shifted down by one |
| Seqs.InsertRemoved | src/glove80/tui/state/store.py:108-113 | putting a popped element back where it was restores the list |
| Seqs.InsertMultiset | src/glove80/tui/state/store.py:110 | inserting adds exactly that element to the contents |
| Seqs.RemoveMultiset | src/glove80/tui/state/store.py:109 | popping removes exactly that element from the contents |
| Seqs.Without | src/glove80/layouts/merge.py:127 | the filtered list holds exactly the members of the list that are not excluded, and is no longer |
| Seqs.WithoutAll | src/glove80/layouts/merge.py:127 | removing every member leaves nothing |
| Seqs.WithoutNoDup | src/glove80/layouts/merge.py:127 | filtering a duplicate-free list leaves it duplicate-free |
| Seqs.WithoutDisjoint | src/glove80/layouts/merge.py:127 | filtering out nothing the list holds leaves it unchanged |
| Seqs.SpliceShape | src/glove80/layouts/merge.py:127-152 | splicing a block at a position puts the block there, with the list's front before it and its back after it |
| Seqs.SpliceMembers | src/glove80/layouts/merge.py:127-152 | after the splice, the members are exactly those of the list and the block |
| Seqs.SpliceNoDup | src/glove80/layouts/merge.py:127-152 | splicing a duplicate-free block into a duplicate-free list that shares nothing with it leaves no duplicates |
| Seqs.NoDupConcat | src/glove80/layouts/merge.py:127-152 | two duplicate-free lists sharing nothing concatenate without duplicates |
| Seqs.IndexOfUnique | src/glove80/layouts/merge.py:127-152 | in a duplicate-free list, the element at a position has that position as its index |
| Seqs.KeysOf | src/glove80/layouts/merge.py:160-170 | the keys of an ordered dictionary, one per entry in order |
| Seqs.Lookup | src/glove80/layouts/merge.py:160-170 | a lookup fails exactly for a key that is not present |
| Seqs.KeysOfSnoc | src/glove80/layouts/merge.py:160-170 | the keys of an entry list end with its last entry's key |
| Seqs.AppendNew | src/glove80/layouts/merge.py:121-125 | appending the names not yet present keeps the old order as a prefix, holds exactly the old and new names, and keeps a duplicate-free order duplicate-free |
| Seqs.AppendNewSnoc | src/glove80/layouts/merge.py:122-124 | appending one more name adds it only when it is not already there |
| Seqs.DedupIsFirstOccurrences | src/glove80/layouts/merge.py:13-23 | `unique_sequence` keeps exactly the first occurrence of each value, in order |
| Seqs.DedupNoDup | src/glove80/layouts/merge.py:13-23 | a list that is already duplicate-free is unchanged |
| Seqs.DedupSnoc | src/glove80/layouts/merge.py:18-22 | one more value is appended only when it has not been seen |

## Left out

- Store operations that src/glove80/tui/state/store.py does not contain are not part of this model: macro, hold-tap, combo and listener editing; reference finding; selection and key access; `export_payload` and `replace_payload`. The bridge's store is represented by the payload it exports and replaces. The search panel and layer strip receive the selection and the layer names as arguments.
- Collaborators whose source is not part of this model come in as function arguments or are left out: `merge_components`, `build_hrm_layers`, `resolve_layer_refs`, `compose_layout`, `find_macro_references`, `find_listener_references`, `set_active_layer`, `list_macros` and `list_listeners`.
- Python object identity is not represented. A deep copy equals its original as a value, so `_materialize_item`'s copy and the dry run's "same object" are both value equality.
- Duck typing in `macro_name` and `_ensure_macro_name` (pydantic models, `model_copy`, objects with a `copy` method) is left out. Only the dict branch is modelled; any other macro value has no name.
- Merge.MergeSectionsExceptLayers, Builder.LayoutBuilder.MergeFeatureComponents, Builder.LayoutBuilder.AddHomeRowMods, Builder.HomeRowModsPlacement, Builder.FeatureComponentsKeepNoDup: the source reads `components.macros_by_name`, which `LayoutFeatureComponents` does not declare, so as written every call raises `AttributeError` (see Findings and Merge.SectionsMergedAsWritten). These members model the corrected merge that reads the bundle's `macro_overrides`.
- Text.Lower: case mapping is ASCII only, so `str.lower` of a non-ASCII capital (for example "É") is left unchanged. Whitespace in Text.StripLeft, Text.Strip and Text.Split does follow Python's full `str.isspace` set.
- Store.RewriteLayerRefs, Features.ExistingOrder, Features.ExistingIndex: a list or dict used as a "name" is unhashable, so the `in` test at src/glove80/tui/state/store.py:207 and the dict lookup at src/glove80/features/base.py:24 raise `TypeError`. The model instead leaves such a reference unchanged, or files the macro under that value. Python's `1 == True` collapse of dict keys is not modelled either.
- A section whose value is `None` is treated like an absent section.
- Primitives.NamedSequence, Primitives.NoneOverrideFails: Python's `None` as a definition or override is encoded only as the absent item. An `Item` whose value is `JNull` is treated as a present object, so that encoding of `None` does not make the sequence fail.
- Bridge.FeatureDiff: `macros_added` and `hold_taps_added` are sets, because the source builds them by iterating a set and their tuple order is not determined.
- `int()` of a reference entry's "layer_index" and "key_index" is not modelled: the references arrive as integer pairs.
- Text.TitleAfter, Commands.Label and Commands.SafeIdentifier: `str.title` and `str.isalnum` are modelled on ASCII letters and digits only. Other Unicode letters and digits are treated as non-alphanumeric.
- `str()`, `repr()` and `json.dumps` of nested values (Json.Repr, Json.Dumps) do not escape quotes, backslashes or control characters, and floats are not represented.
- The command's `source` object is not represented, and the namespace arrives as the string it is derived from.
- Asynchronous behaviour of the validation coordinator is left out: the event loop, the timer, the executor and `ValidationService`. The debounce is a flag plus a delay in milliseconds, and the issues a pass collects are an argument.
- The search panel's key, macro and listener tests are function arguments of its loop methods. The `Input.Changed` event that clearing the input fires on open, and restoring focus on close, are left out.
- The mouse event's content offset is an argument. Widget text styles, focus, CSS classes, refresh and every other rendering detail are left out.
- Textual and asyncio plumbing is left out: `compose`, `on_mount`, message delivery and `call_after_refresh`. Posted messages are recorded in a `posted` (or `activations`) field.
- Saving, file I/O, metadata loading, the fixed layer tables, the layout families and the modal screens are outside this core.

## Findings

| source | as written | input that shows it | evidently intended | confidence | as-written member | corrected member |
|---|---|---|---|---|---|---|
| src/glove80/layouts/merge.py:58 | passes `components.macros_by_name`, an attribute `LayoutFeatureComponents` does not declare, so the call raises `AttributeError` | a layout `{"macros": []}` merged with an empty `LayoutFeatureComponents()` | pass the bundle's `macro_overrides` (src/glove80/layouts/components.py:16) | not executed | Merge.SectionsAsWrittenRaise | Merge.SectionsMergedEffect |
