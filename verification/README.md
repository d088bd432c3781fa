# react-native-select-pro: the `useSelect` interaction core in Dafny

This project models the interaction and selection logic of the select
widget's `useSelect` hook
(`packages/react-native-select-pro/src/components/select/select.hooks.ts`).
Each handler becomes a pure function. It takes the props that steer it
(`multiple`, `searchable`, `disabled`, `closeOptionsListOnSelect`), a
snapshot of the widget state (`isOpened`, `selectedOption`,
`selectedOptionIndex`, `optionsData`) and the handler's input. It returns
the ordered trace of its effects, and `clear` also returns its result.
An effect is either an action handed to `dispatch` (`open`, `close`,
`setOptionsListPosition`, `selectOption`, `setSearchValue`) or a call of
one of the caller's callbacks (`onSelectOpened`, `onSelectClosed`,
`onSelect`, `onSectionSelect`, `onSectionRemove`). `Trace.Dispatched` and
`Trace.Fired` project a trace onto the actions and onto the callbacks, each
in order. Every property is stated over those payloads.

Files and modules:

- `select_types.dfy` (`SelectTypes`): options, sections, options data as
  `Flat | Sectioned`, and the selection payload in its exact JavaScript
  shapes. `selectedOption` is `NullOption | OneOption | ManyOptions`.
  `selectedOptionIndex` is `OneIndex(n)` (where `-1` means unselected) or
  `ManyIndexes(seq)`. The predicate `ModeConsistent` states which shapes
  each mode produces: single mode keeps one option with a number (or null
  with -1), and multi mode keeps arrays or the unselected sentinels.
- `trace.dfy` (`Trace`): the effect projections and their laws.
- `select_helpers.dfy` (`SelectHelpers`, `HelperLaws`): first-match lookups
  (`find`, `findIndex` and `some`, all by `value`), the filter used by the
  section press, and the helpers the hook imports but that are not part of
  this model (see "Assumed helper definitions").
- `select_hooks.dfy` (`SelectHooks`): the handlers themselves.
- `select_properties.dfy` (`SelectProperties`): lemmas that relate several
  calls.

Assumed helper definitions. `getReducedSectionData`,
`getSectionOptionsIndexes`, `selectedOptionResolver`, `isOptionType`,
`isOptionIndexType` and `isSectionOptionsType` come from modules that are
not part of this model.
They are given these assumed definitions:

- `Flatten` concatenates every section's `data`, in section order. A
  position in the result is an option's index; `options-list.tsx:49`
  computes a pressed option's index the same way.
- `OptionsIndexes` (behind `SectionOptionsIndexes`) maps each option to the
  first flat position of its `value` and drops options whose value is
  absent.
- `SelectedOptions` is the selection when it is an array and undefined
  otherwise. `SelectedOptionLabel` is the label when a single option is
  selected and undefined otherwise.
- `isOptionType` holds of a single option, and `isOptionIndexType` holds of
  a number.
- `IsSectionOptionsType` (for `isSectionOptionsType`, select.hooks.ts:43)
  holds when the data is a non-empty array of sections. In JavaScript an
  empty array is one value, so it counts as flat whichever tag
  (`Flat([])` or `Sectioned([])`) it carries in the model.
  `SelectProperties.EmptyDataIsOneValue` shows the handlers treat the two
  tags alike.

Quirks kept exactly as the code behaves:

- In `resolveOption`, the `!== null` filter removes nothing, because
  `findIndex` returns -1, never null. An appended option missing from the
  data keeps -1 in its index slot, and the result's index is never `-1`
  itself.
- In the section removal branch, `restOptions` is always an array. The
  index payload is therefore always a looked-up array, even when the
  selection becomes `null`.
- With nothing selected, pressing an empty or unknown section takes the
  addition branch and yields `[]` with index -1. With an empty array
  selected, the same press takes the removal branch and yields `null` with
  index `[]`.
- An empty array counts as truthy in `selectedOptions ? … : …` and in
  `clear`. An empty label counts as falsy in `onOutsidePress`.

Further behaviour of the code that the model keeps:

- An option press closes the list whenever `closeOptionsListOnSelect` is
  set, in multi mode too (select.hooks.ts:201-203).
- The section removal branch leaves the index as an array, never -1
  (select.hooks.ts:276-278).
- The index array of an option press may hold -1 entries
  (select.hooks.ts:187-189). Only the assumed `getSectionOptionsIndexes`
  drops options missing from the data.
- The imperative `open` does not consult `disabled` (select.hooks.ts:145-150).
  A disabled widget can still be opened through the handle.
- A section press fires `onSectionSelect` or `onSectionRemove` while the
  `selectOption` payload is being computed, so the callback comes just
  before that dispatch (select.hooks.ts:251-304).

## Model

| member | source | states |
|---|---|---|
| SelectHelpers.FirstIndex | packages/react-native-select-pro/src/components/select/select.hooks.ts:188 | `findIndex` by value: -1 exactly when no option has the value; otherwise the position holds the value and no earlier position does |
| SelectHelpers.SectionIndex | packages/react-native-select-pro/src/components/select/select.hooks.ts:252-257 | `find`/`findIndex` by title: -1 exactly when no section has the title, otherwise the first section with it |
| SelectHelpers.Flatten | packages/react-native-select-pro/src/components/select/select.hooks.ts:184-186 | assumed `getReducedSectionData`: an option is in the flattened list exactly when some section holds it |
| HelperLaws.FlattenConcat | packages/react-native-select-pro/src/components/options-list/options-list.tsx:49 | flattening keeps section order: the flattening of two section lists joined is the two flattenings joined |
| HelperLaws.FlattenOne | packages/react-native-select-pro/src/components/options-list/options-list.tsx:49 | one section flattens to its own options in their order; with `FlattenConcat` this fixes the flattened list, and so every flat index |
| SelectHelpers.OptionsIndexes | packages/react-native-select-pro/src/components/select/select.hooks.ts:286-290 | assumed `getSectionOptionsIndexes`: every entry is a valid flat position; when every option is in the data there is one entry per option and it is that option's first flat position; when none is, the result is empty |
| SelectHelpers.SectionOptionsIndexes | packages/react-native-select-pro/src/components/select/select.hooks.ts:286-290 | each `getSectionOptionsIndexes(optionsData, …)` call: at most one entry per option, each a valid position in the flattened sections; when every option is present, one entry per option, its first flat position |
| SelectHelpers.SelectedOptions | packages/react-native-select-pro/src/components/select/select.hooks.ts:42 | assumed `selectedOptionResolver`: `selectedOptions` is defined exactly when the selection is an array, and is then that array |
| SelectHelpers.SelectedOptionLabel | packages/react-native-select-pro/src/components/select/select.hooks.ts:42 | assumed `selectedOptionResolver`: `selectedOptionLabel` is defined exactly when a single option is selected, and is then that option's label |
| SelectHelpers.Without | packages/react-native-select-pro/src/components/select/select.hooks.ts:269-272 | the value filter: an option is kept exactly when it is in the input and its value is not among the other list's; the kept options are a subsequence of the input, in order |
| HelperLaws.WithoutConcat | packages/react-native-select-pro/src/components/select/select.hooks.ts:269-272 | the value filter distributes over concatenation |
| HelperLaws.WithoutNoneMatch | packages/react-native-select-pro/src/components/select/select.hooks.ts:260-262 | the value filter is the identity when no value of the input occurs in the other list |
| HelperLaws.WithoutAllMatch | packages/react-native-select-pro/src/components/select/select.hooks.ts:269-272 | the value filter empties the input when every value of the input occurs in the other list |
| HelperLaws.FilterOutAppended | packages/react-native-select-pro/src/components/select/select.hooks.ts:269-272 | appending options whose values are all new and then filtering them back out by value gives the original selection |
| HelperLaws.DisjointWithout | packages/react-native-select-pro/src/components/select/select.hooks.ts:260-290 | for a section with no selected value, the filter keeps the whole section, appending it selects every value, and filtering it out again restores the selection |
| HelperLaws.OptionsIndexesConcat | packages/react-native-select-pro/src/components/select/select.hooks.ts:265-290 | assumed `getSectionOptionsIndexes`: the indexes of two lists joined are the two lists' indexes joined |
| HelperLaws.OptionsIndexesOne | packages/react-native-select-pro/src/components/select/select.hooks.ts:265-268 | assumed `getSectionOptionsIndexes`: one option gives its first flat position, or nothing when its value is absent |
| Trace.ProjectionMembers | packages/react-native-select-pro/src/components/select/select.hooks.ts:45-53 | an action is in the dispatched list exactly when the trace dispatches it, and a callback is in the fired list exactly when the trace fires it |
| Trace.DispatchedConcat | packages/react-native-select-pro/src/components/select/select.hooks.ts:199-240 | running two effect lists in sequence dispatches the first's actions, then the second's |
| Trace.FiredConcat | packages/react-native-select-pro/src/components/select/select.hooks.ts:199-240 | running two effect lists in sequence fires the first's callbacks, then the second's |
| SelectHooks.CloseEffects | packages/react-native-select-pro/src/components/select/select.hooks.ts:50-53 | `close()` dispatches `close` only and fires `onSelectClosed` only |
| SelectHooks.StatusBarOffset | packages/react-native-select-pro/src/components/select/select.hooks.ts:80-81 | the `|| 0` fallback: an absent status-bar height adds 0, a present one adds that height |
| SelectHooks.OpenEffects | packages/react-native-select-pro/src/components/select/select.hooks.ts:45-48 | `open()` dispatches `open` only and fires `onSelectOpened` only |
| SelectHooks.OptionsListPosition | packages/react-native-select-pro/src/components/select/select.hooks.ts:75-92 | the list goes above exactly when control bottom plus list height exceeds the screen height; above, the list's bottom edge meets the control's top (plus status bar); below, its top meets the control's bottom, shifted by `valueY` and the status bar; the width is the control's; under RTL the list's right margin equals the control's x, otherwise left is x |
| SelectHooks.PositionEffects | packages/react-native-select-pro/src/components/select/select.hooks.ts:55-92 | a measurement that never resolves dispatches nothing; a resolved one dispatches exactly one `setOptionsListPosition` with the computed placement; no callback fires |
| SelectHooks.OnPressSelectControl | packages/react-native-select-pro/src/components/select/select.hooks.ts:95-109 | disabled: no effect; opened: `close` only; closed with a control ref: `open`, then the position dispatch if the measurement resolves; closed without a ref: no effect; it never both opens and closes |
| SelectHooks.ImperativeOpen | packages/react-native-select-pro/src/components/select/select.hooks.ts:145-150 | without a control ref no effect; with one, `open` then the position dispatch, firing `onSelectOpened` |
| SelectHooks.Clear | packages/react-native-select-pro/src/components/select/select.hooks.ts:114-144 | always exactly one dispatch, `selectOption(null, -1)`, and no callback; the single-mode result exactly when a single option and a number are selected in single mode, carrying them; the array result exactly when arrays are selected in multi mode, carrying them; otherwise `{}` |
| SelectHooks.AlreadySelected | packages/react-native-select-pro/src/components/select/select.hooks.ts:170-173 | `find` on the selected options succeeds exactly when an array is selected and one of its options has the pressed value |
| SelectHelpers.IsSectionOptionsType | packages/react-native-select-pro/src/components/select/select.hooks.ts:43 | assumed `isSectionOptionsType`: flat data never counts as sectioned; a section array counts exactly when it is non-empty |
| SelectHelpers.FlatOptions | packages/react-native-select-pro/src/components/select/select.hooks.ts:184-186 | flat data is its own index space; sectioned data gives exactly its flattening (so the order of `FlattenConcat` and `FlattenOne`), whose members are exactly the options some section holds; an empty array of sections gives none |
| SelectHooks.ResolveOption | packages/react-native-select-pro/src/components/select/select.hooks.ts:161-197 | single mode: exactly the pressed option and index; multi mode with the value already selected: the current selection and index unchanged; otherwise the old array with the option appended, an index array of the same length whose entries are each option's first flat position or -1 |
| SelectHooks.SearchAfterPress | packages/react-native-select-pro/src/components/select/select.hooks.ts:210-219 | when searchable, one `setSearchValue`: empty in multi mode, the pressed label in single mode; nothing otherwise |
| SelectHooks.CloseIf | packages/react-native-select-pro/src/components/select/select.hooks.ts:201-203 | a conditional `close()`: two effects, `close` and `onSelectClosed`, when the condition holds, and none otherwise |
| SelectHooks.SearchReset | packages/react-native-select-pro/src/components/select/select.hooks.ts:304-306 | an empty `setSearchValue` exactly when searchable, and no callback |
| SelectHooks.SelectAndReport | packages/react-native-select-pro/src/components/select/select.hooks.ts:205-228 | after the optional close: one `selectOption` with the resolved selection, then the search update, and `onSelect(option, index)` as the last effect |
| SelectHooks.OnPressOption | packages/react-native-select-pro/src/components/select/select.hooks.ts:199-228 | dispatches `close` first exactly when `closeOptionsListOnSelect` is set (either mode), and then the trace opens with `close` and `onSelectClosed`; then one `selectOption` with the resolved selection, then the search update; `onSelect(option, index)` is the last effect of all |
| SelectHooks.SectionOptions | packages/react-native-select-pro/src/components/select/select.hooks.ts:252-259 | the first section with the title supplies the options, each tagged with the title and that section's position; an unknown title gives none |
| HelperLaws.WithoutEmpty | packages/react-native-select-pro/src/components/select/select.hooks.ts:260-264 | no section option is left unselected exactly when every section value is among the selection |
| HelperLaws.AddedCoversSection | packages/react-native-select-pro/src/components/select/select.hooks.ts:282-284 | after appending the unselected options, every value of the section is selected |
| SelectHooks.SectionRemoved | packages/react-native-select-pro/src/components/select/select.hooks.ts:264-280 | `onSectionRemove` gets the whole section and its indexes; the rest keeps, in order, exactly the selected options whose value is outside the section; null exactly when nothing remains, with index `[]`; the index is always an array |
| SelectHooks.SectionAdded | packages/react-native-select-pro/src/components/select/select.hooks.ts:282-296 | the added options are exactly the section's options with unselected values, in section order; `onSectionSelect` gets them and their indexes; the selection is the old array followed by them; every section value is then selected; the index is the looked-up array, or -1 when that is empty |
| SelectHooks.ResolveSection | packages/react-native-select-pro/src/components/select/select.hooks.ts:251-297 | removal happens exactly when a selection array exists and no section option is unselected; otherwise addition |
| SelectHooks.ReportAndSelect | packages/react-native-select-pro/src/components/select/select.hooks.ts:251-306 | the section callback is the first effect and the `selectOption` with the resolved payload the second; an empty `setSearchValue` follows exactly when searchable |
| SelectHooks.SectionPressEffects | packages/react-native-select-pro/src/components/select/select.hooks.ts:243-306 | after the optional close: the section callback, immediately followed by one `selectOption` with the resolved payload, then an empty `setSearchValue` when searchable |
| SelectHooks.OnPressSection | packages/react-native-select-pro/src/components/select/select.hooks.ts:242-307 | outside multi mode over a non-empty array of sections: only the optional close; inside: close (if set), the section callback immediately followed by the resolved selection, then the search reset |
| SelectHooks.OnOutsidePress | packages/react-native-select-pro/src/components/select/select.hooks.ts:309-318 | dispatches exactly `setSearchValue(label)` then `close` when searchable and a single option with a non-empty label is selected, and `close` alone otherwise; fires only `onSelectClosed` |
| SelectProperties.SinglePressReplacesSelection | packages/react-native-select-pro/src/components/select/select.hooks.ts:161-208 | single mode: the press dispatches the pressed option and index whatever was selected before; `close` precedes it exactly when `closeOptionsListOnSelect` is set |
| SelectProperties.OptionPressClosesIffFlag | packages/react-native-select-pro/src/components/select/select.hooks.ts:199-228 | in either mode `close` is dispatched exactly when the flag is set, and first; `onSelect` is the last callback |
| SelectProperties.MultiPressSelectedIsNoOp | packages/react-native-select-pro/src/components/select/select.hooks.ts:170-181 | multi mode: pressing an already selected value dispatches the current selection and index |
| SelectProperties.MultiPressTwiceIdempotent | packages/react-native-select-pro/src/components/select/select.hooks.ts:170-194 | multi mode: pressing an option again on the selection the first press dispatched dispatches the same selection |
| SelectProperties.MultiPressUnknownOptionKeepsMinusOne | packages/react-native-select-pro/src/components/select/select.hooks.ts:187-193 | an appended option missing from the data gets -1 in its slot and the index stays an array |
| SelectProperties.SectionPressGate | packages/react-native-select-pro/src/components/select/select.hooks.ts:242-249 | a `selectOption` is dispatched exactly in multi mode over sectioned data; `close` exactly when `closeOptionsListOnSelect` and `multiple` |
| SelectProperties.SectionIndexesAreFlatPositions | packages/react-native-select-pro/src/components/select/select.hooks.ts:265-268 | the indexes reported with a section's options have one entry per option, each that option's first position in the flattened list |
| SelectProperties.SectionToggleRoundTrip | packages/react-native-select-pro/src/components/select/select.hooks.ts:251-297 | pressing a section none of whose values is selected adds the whole section; pressing it again on that selection removes it and restores the original options, or null when there were none |
| SelectProperties.EmptyDataIsOneValue | packages/react-native-select-pro/src/components/select/select.hooks.ts:43 | an empty options array behaves the same under either tag: option and section presses produce identical traces |
| SelectProperties.EmptySectionPress | packages/react-native-select-pro/src/components/select/select.hooks.ts:264-295 | an empty or unknown section yields `[]` with -1 when nothing is selected, and null with `[]` when an empty array is selected |
| SelectProperties.HandlersKeepSelectionShape | packages/react-native-select-pro/src/components/select/select.hooks.ts:161-197 | from a selection of the mode's shape, every selection dispatched by an option press, a section press or `clear` keeps the mode's shape |
| SelectProperties.OutsidePressRestoresPressedLabel | packages/react-native-select-pro/src/components/select/select.hooks.ts:309-318 | single searchable mode: once the pressed option (with a non-empty label) is held, an outside press writes the label the press wrote and then closes; multi mode: an outside press only closes |
| SelectProperties.ClearReturnsSelection | packages/react-native-select-pro/src/components/select/select.hooks.ts:119-143 | on a selection of the mode's shape, `clear` returns exactly what was selected, and `{}` exactly when nothing was or a multi selection has index -1 |
| SelectProperties.ImperativeOpenIgnoresDisabled | packages/react-native-select-pro/src/components/select/select.hooks.ts:145-150 | the handle's `open` dispatches what a press on an enabled closed control dispatches, and still opens when a disabled control's press does nothing |
| SelectProperties.PlacementMirrors | packages/react-native-select-pro/src/components/select/select.hooks.ts:82 | the RTL list is the LTR list reflected about the screen's vertical midline; top and side do not depend on direction |
| SelectProperties.PlacementExamples | packages/react-native-select-pro/src/components/select/select.hooks.ts:78-82 | y 700, height 40, list 200: above on an 800 screen, below on a 1000 screen; x 50, width 100 on a 400 screen: left 250 under RTL, 50 otherwise |
| SelectProperties.FlattenExample | packages/react-native-select-pro/src/components/select/select.hooks.ts:184-186 | sections A = [o1, o2] and B = [o3] flatten to [o1, o2, o3], and o3's index is 2 |

## Left out

- Asynchronous measurement (`measureInWindow` and the Promises at select.hooks.ts:55-73): the measured rectangle, the list height, the screen size and `valueY` are plain inputs. A measurement that never resolves is `Nothing`.
- React hook machinery (`useCallback`, `useImperativeHandle`, `useContext`, `useWindowDimensions`) and the `I18nManager` lookup: the RTL flag is an input.
- The status-bar constant in `constants/others.ts` (0 on iOS, `StatusBar.currentHeight` elsewhere): an optional input, with absent meaning 0. The platform lookup is not modelled.
- Keyboard blur (`hideKeyboardIfNeeded`): it has no effect on state or payloads.
- The reducer: no lemma assumes what it does with an action. Where a property spans two presses, it takes "the snapshot holds the first payload" as a hypothesis.
- `getState` returns the state unchanged, and the imperative `close` is `close()` itself (`CloseEffects`).
- Whether an optional callback is present: a trace records every call the hook makes through `?.()` or `if (onSelect)`, and an absent callback turns that call into nothing.
- `options-list.tsx` and `option.tsx`: rendering, styles and memoisation. The accessibility label `Select {label}` is not modelled.
- Floating-point layout numbers: the model uses `real` with no rounding, so NaN and infinities are not modelled.
- Duplicate option values: every lookup is first-match, and no property claims more than that.
- SelectHelpers.OptionsIndexes: the assumed helper's contract speaks only of lists whose options are all present or all absent in the data. Mixed lists are covered by splitting them with `HelperLaws.OptionsIndexesConcat` and `HelperLaws.OptionsIndexesOne`.
- Option values are modelled as strings compared by content. The source compares its generic value type with `===`, so object values compared by reference, and `NaN` (never equal to itself), are not modelled.
