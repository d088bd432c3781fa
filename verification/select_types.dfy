/** The widget's data: options (flat or grouped into sections), the dual
    scalar/array selection payload, the actions dispatched to the widget's
    reducer and the callbacks handed to the caller. */
module SelectTypes {

  /** An option's identity; options are compared by `value` with `===`. */
  type Value = string

  datatype Maybe<+T> = Nothing | Just(value: T)

  /** The back-reference an option receives when it is shown or pressed as
      part of a section: the section's title and its position. */
  datatype SectionTag = NoSection | InSection(title: string, index: int)

  /** `labelText` is the option's `label` field (`label` is a Dafny keyword). */
  datatype OptionType = OptionType(value: Value, labelText: string, disabled: bool, section: SectionTag)

  datatype Section = Section(title: string, data: seq<OptionType>)

  /** The options list, flat or sectioned. The hook decides which by
      `isSectionOptionsType`, under which an empty list is flat whatever
      its tag here (see `SelectHelpers.IsSectionOptionsType`). */
  datatype OptionsData = Flat(options: seq<OptionType>) | Sectioned(sections: seq<Section>)

  /** `selectedOption`: `null`, one option, or an array of options. */
  datatype Selected = NullOption | OneOption(option: OptionType) | ManyOptions(options: seq<OptionType>)

  /** `selectedOptionIndex`: a number (`-1` when unselected) or an array. */
  datatype SelectedIndex = OneIndex(index: int) | ManyIndexes(indexes: seq<int>)

  /** The payload of a `selectOption` action. */
  datatype Payload = Payload(selectedOption: Selected, selectedOptionIndex: SelectedIndex)

  /** The payload of `setOptionsListPosition`: where the options list is drawn. */
  datatype Placement = Placement(width: real, top: real, left: real, aboveSelectControl: bool)

  datatype Action =
    | Open
    | Close
    | SetOptionsListPosition(placement: Placement)
    | SelectOption(payload: Payload)
    | SetSearchValue(search: string)

  datatype Callback =
    | OnSelectOpened
    | OnSelectClosed
    | OnSelect(option: OptionType, optionIndex: int)
    | OnSectionSelect(added: seq<OptionType>, addedIndexes: seq<int>)
    | OnSectionRemove(removed: seq<OptionType>, removedIndexes: seq<int>)

  /** One observable step of a handler: an action handed to `dispatch`, or a
      call of one of the caller's optional callbacks. */
  datatype Effect = Dispatch(action: Action) | Fire(callback: Callback)

  /** The props that steer the handlers. */
  datatype Config = Config(multiple: bool, searchable: bool, disabled: bool, closeOptionsListOnSelect: bool)

  /** The part of the widget state the handlers read. */
  datatype Snapshot = Snapshot(
    isOpened: bool,
    selectedOption: Selected,
    selectedOptionIndex: SelectedIndex,
    optionsData: OptionsData)

  /** The control's rectangle as measured in the window. */
  datatype Rect = Rect(x: real, y: real, width: real, height: real)

  /** What the two window measurements deliver: the control's rectangle,
      then the options list's height. */
  datatype Measurement = Measurement(control: Rect, listHeight: real)

  /** Screen size, the modal's vertical offset (`valueY`), the status-bar
      height (absent on some platforms) and the layout direction. */
  datatype Screen = Screen(width: real, height: real, valueY: real, statusBar: Maybe<real>, isRTL: bool)

  /** What the imperative `clear` hands back to its caller. */
  datatype ClearResult =
    | RemovedOne(removedSelectedOption: OptionType, removedSelectedOptionIndex: int)
    | RemovedMany(removedSelectedOptions: seq<OptionType>, removedSelectedOptionsIndexes: seq<int>)
    | NothingRemoved

  /** The selection shape each mode keeps: a single option and a number in
      single mode, arrays (or the unselected sentinels) in multi mode. */
  predicate ModeConsistent(multiple: bool, p: Payload) {
    if multiple then
      (p.selectedOption.NullOption? || p.selectedOption.ManyOptions?)
      && (p.selectedOptionIndex.ManyIndexes? || p.selectedOptionIndex == OneIndex(-1))
    else
      (p.selectedOption.NullOption? && p.selectedOptionIndex == OneIndex(-1))
      || (p.selectedOption.OneOption? && p.selectedOptionIndex.OneIndex?)
  }
}
