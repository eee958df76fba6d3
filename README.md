# DragonLens field editors and damage-class filter, in Dafny

This project models two pieces of the DragonLens developer-tools overlay:

- **Field editors.** A field editor is a widget that holds `value`, the value it believes some
  tracked field has. Once per tick its sealed `Update` re-reads that field through an optional
  getter, unless the editor is `Editing`. It calls the `OnRecieveNewValue` hook before it
  overwrites `value`. The entity editor extends this with a `selecting` flag, set by its selector
  button. While `selecting` is set the editor is editing. Each tick, a right click cancels. A left
  click asks the abstract `OnSelect` hit-test for an entity. On a hit, the editor calls
  `onValueChanged`, stores the entity and stops selecting.
- **The damage-class item filter.** The predicate answers "exclude?". It keeps only item buttons
  whose item deals damage (`damage > 0`) and whose damage type counts as the filter's class.

Files:

- `Wrappers.dfy`: `Option`.
- `FieldEditor.dfy` (module `FieldEditors`): the polling rule `Poll`, multi-tick runs `PollRun`
  and their lemmas, and the class `FieldEditor`. That class is an editor that keeps the base
  `Editing`, hook and `SafeUpdate`.
- `EntityEditor.dfy` (module `EntityEditors`): the state machine as functions
  (`SafeStep`, `Tick`, `StartSelecting`, `Run` over ticks and selector clicks), the trace lemmas,
  and the classes `EntityEditor` and `SelectorButton`.
- `DamageClassFilter.dfy` (module `ItemFilters`): `FilterByDamageClass`, its lemmas, and the
  class `DamageClassFilter`.

The classes hold the mutable state. Each tick method is proved to move the state exactly as a
pure function of the old state and the tick's inputs. The multi-tick properties are lemmas about
those functions. Ghost fields log the callbacks:

- `hooks` logs the calls to `OnRecieveNewValue`.
- `changed` logs the calls to `onValueChanged`.
- `selects` counts the calls to `OnSelect`.

Each logged call records its argument and the editor's `value` at that moment. That is how the
model states "before `value` is assigned".

Engine inputs are parameters:

- **Getter.** The getter `listenForUpdate` is modelled in two parts. A `listens` flag is fixed at
  construction. Each tick passes the getter's result as `Some(result)`, or `None` when there is
  no getter. For an entity editor the null entity is `None`, so the getter's result is an
  `Option<Option<E>>`.
- **Mouse buttons.** `Main.mouseLeft` and `Main.mouseRight` are booleans per tick.
- **Hit-test.** The concrete `OnSelect` hit-test is a per-tick `hit: Option<E>`.
- **Class relation and name.** The engine's `DamageClass.CountsAsClass` is a relation parameter
  `countsAsClass`, and `DamageClass.DisplayName` is a function parameter `displayName` from
  class to text.

Facts about the code that a reader might not expect:

- **No generic begin/commit/cancel.** The generic editor has no `beginEdit`, `commit` or `cancel`
  operations. The base `Editing` is false; of the editors modelled here, only the entity editor
  overrides it.
- **Click sets only `selecting`.** A click sets `selecting` and nothing else. Because `Editing` is
  defined as `selecting`, that alone enters editing.
- **Cancel order.** The cancel check and the select check are two separate `if`s. A right click
  clears `selecting` first, so a tick with both buttons held cancels and does not select.
- **Overwrite after a commit.** After a commit, the next tick polls again, so a getter overwrites
  the committed value with whatever the tracked field then holds.
- **The filter keeps the constructor's class.** The filter's lambda captures the constructor's
  `damageClass` parameter, not the public field. Assigning the field later does not change what
  the filter excludes. The constructor's contract ties the predicate to the class as stored at
  construction.

## Model

| member | source | states |
|---|---|---|
| `FieldEditors.Poll` | Content/GUI/FieldEditors/FieldEditor.cs:71-78 | when editing or without a getter nothing changes; otherwise `value` becomes the getter's result and the hook is called once with it while `value` still holds the old value |
| `FieldEditors.PollRunFrozen` | Content/GUI/FieldEditors/FieldEditor.cs:73 | while editing, or with no getter, any number of ticks leave `value` and the hook log unchanged |
| `FieldEditors.PlainEditorTracksGetter` | Content/GUI/FieldEditors/FieldEditor.cs:45-77 | an editor with the base `Editing` and a getter polls on every tick: the hook log grows by one call per tick, earlier calls are kept, and `value` ends as the last tick's getter result |
| `FieldEditors.PlainEditorHookSeesOldValue` | Content/GUI/FieldEditors/FieldEditor.cs:66-77 | the hook call of tick i received tick i's getter result while `value` held the previous tick's result (or the value before the run) |
| `FieldEditors.FieldEditor.constructor` | Content/GUI/FieldEditors/FieldEditor.cs:54-63 | after construction `value` is the initial value, name, description and getter are stored, the editor is not editing and no callback has run |
| `FieldEditors.FieldEditor.Editing` | Content/GUI/FieldEditors/FieldEditor.cs:45 | the base editor is never editing |
| `FieldEditors.FieldEditor.OnRecieveNewValue` | Content/GUI/FieldEditors/FieldEditor.cs:65-69 | the hook is logged with the new value and the current, not yet overwritten, `value` |
| `FieldEditors.FieldEditor.Update` | Content/GUI/FieldEditors/FieldEditor.cs:71-84 | one tick moves `value` and the hook log exactly as `Poll` with `Editing` false, and never calls `onValueChanged` |
| `EntityEditors.SafeStep` | Content/GUI/FieldEditors/EntityEditor.cs:32-48 | a right click ends selecting with `value` untouched and no callback, even with the left button held; not selecting changes nothing and does not call `OnSelect`; selecting with a left click and no hit only counts one `OnSelect` call; a hit calls `onValueChanged(e)` once while `value` is still the old one, then sets `value` to e and clears `selecting` |
| `EntityEditors.Tick` | Content/GUI/FieldEditors/FieldEditor.cs:71-82 | polling precedes `SafeUpdate`: a tick that begins selecting skips the getter and the hook and is exactly `SafeStep`; a tick that begins not selecting changes only `value`, to the getter's result, and the hook log, by one call with that result and the old `value` (nothing when there is no getter); `onValueChanged` is called exactly in the committing case |
| `EntityEditors.StartSelecting` | Content/GUI/FieldEditors/EntityEditor.cs:82-86 | a click makes the editor selecting, hence editing, and changes nothing else |
| `EntityEditors.SelectingHoldsValue` | Content/GUI/FieldEditors/EntityEditor.cs:16-41 | while selecting, any run of ticks without a right click or a hit (and of further clicks) keeps `selecting`, leaves `value` and the hook log unchanged and fires no `onValueChanged` |
| `EntityEditors.CommitsNeedClicks` | Content/GUI/FieldEditors/EntityEditor.cs:34-46 | over any run, the `onValueChanged` calls plus one if still selecting never exceed the selector clicks plus one if selecting at the start |
| `EntityEditors.NewEditorCommitsAtMostPerClick` | Content/GUI/FieldEditors/EntityEditor.cs:14-46 | a new editor calls `onValueChanged` at most once per click of its selector button |
| `EntityEditors.ValueProvenance` | Content/GUI/FieldEditors/EntityEditor.cs:39-45 | after any run `value` is the value it started with, a getter result from a tick that began not selecting, or the hit of a committing tick |
| `EntityEditors.SelectorButton.constructor` | Content/GUI/FieldEditors/EntityEditor.cs:75-80 | the button stores the editor it belongs to |
| `EntityEditors.SelectorButton.Click` | Content/GUI/FieldEditors/EntityEditor.cs:82-86 | the parent editor's state becomes `StartSelecting` of its old state |
| `EntityEditors.EntityEditor.constructor` | Content/GUI/FieldEditors/EntityEditor.cs:14-24 | a new entity editor holds the initial value, is not selecting and so not editing, has run no callback, and owns a fresh selector button whose parent it is |
| `EntityEditors.EntityEditor.Editing` | Content/GUI/FieldEditors/EntityEditor.cs:16 | `Editing` equals `selecting` in every state |
| `EntityEditors.EntityEditor.OnRecieveNewValue` | Content/GUI/FieldEditors/FieldEditor.cs:69 | the inherited hook is logged with the new value and the not yet overwritten `value` |
| `EntityEditors.EntityEditor.OnSelect` | Content/GUI/FieldEditors/EntityEditor.cs:26-30 | the hit-test returns what is under the pointer and is counted |
| `EntityEditors.EntityEditor.SafeUpdate` | Content/GUI/FieldEditors/EntityEditor.cs:32-48 | the state after the call is `SafeStep` of the state before |
| `EntityEditors.EntityEditor.Update` | Content/GUI/FieldEditors/FieldEditor.cs:71-82 | the state after one tick is `Tick` of the state before |
| `ItemFilters.FilterByDamageClass` | Content/Filters/ItemFilters/DamageClassFilter.cs:16-27 | non-item buttons are excluded; items with damage <= 0 are excluded whatever their type; damaging items whose type counts as the class are kept; items whose type does not count as the class are excluded |
| `ItemFilters.KeptExactlyDamagingMembers` | Content/Filters/ItemFilters/DamageClassFilter.cs:16-27 | a button is kept if and only if it is the button of an item with damage > 0 whose type counts as the class |
| `ItemFilters.MatchIsByRelation` | Content/Filters/ItemFilters/DamageClassFilter.cs:22 | for a damaging item, being kept is exactly `CountsAsClass(type, class)`, not type identity |
| `ItemFilters.BroaderClassKeepsMore` | Content/Filters/ItemFilters/DamageClassFilter.cs:22 | with a transitive `CountsAsClass`, a filter for a broader class keeps everything a narrower class's filter keeps |
| `ItemFilters.PositiveAmountDecides` | Content/Filters/ItemFilters/DamageClassFilter.cs:22-26 | an item of the target class with damage 10 is kept and with damage 0 is excluded (given that the class counts as itself) |
| `ItemFilters.DamageClassFilter.constructor` | Content/Filters/ItemFilters/DamageClassFilter.cs:11-14 | the stored `damageClass` is the one given, the title is that class's display name, the description is "Items with " and that name, and the predicate is `FilterByDamageClass` with that class |

## Left out

- Content/Tools/Map/HideMap.cs: it works by reflection on an engine-private field and by calls into the engine's map, whose behaviour is not visible. The only statable effect is that two global flags become true.
- Drawing is not modelled: `Draw`, `SafeDraw`, `SelectorButton.Draw`, textures, colours, tooltips, and the width and height layout (including the editor's `height` constructor argument). The `value.active` liveness check only affects rendering and is left out with it.
- The chat message that `SelectorButton.Click` shows through `Main.NewText` is not modelled: it is output to the user only.
- `UIElement.Update` (the `base.Update` call inside `Update`) is not modelled. It only updates the widget's children. A click on the selector button is modelled as a separate event, `SelectorClick`, which may come between any two ticks.
- The getter's own behaviour and any exception it throws are left out. Each tick's result is an input.
- `onValueChanged` and `OnRecieveNewValue` are recorded as logged calls. What a concrete callback or an overriding hook does to other state is not modelled. The hook used is the base one, which does nothing.
- The `Filter` base class and the browser's combination of several filters are not part of this model.
- Integer width: `damage` is an unbounded `int`. The filter only compares it with 0, so 32-bit width does not matter.
