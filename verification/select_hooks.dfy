/** The handlers of `useSelect`, each a pure function from the props, a
    snapshot of the widget state and the handler's input to the effects it
    produces, in order. The reducer that consumes the dispatched actions is
    not part of this model. */
module SelectHooks {
  import opened SelectTypes
  import opened SelectHelpers
  import opened HelperLaws
  import opened Trace

  /** `close()`: dispatch `close`, then call `onSelectClosed`. */
  function CloseEffects(): (r: seq<Effect>)
    ensures Dispatched(r) == [Close] && Fired(r) == [OnSelectClosed]
  {
    DispatchedPair(Dispatch(Close), Fire(OnSelectClosed));
    [Dispatch(Close), Fire(OnSelectClosed)]
  }

  /** `open()`: dispatch `open`, then call `onSelectOpened`. */
  function OpenEffects(): (r: seq<Effect>)
    ensures Dispatched(r) == [Open] && Fired(r) == [OnSelectOpened]
  {
    DispatchedPair(Dispatch(Open), Fire(OnSelectOpened));
    [Dispatch(Open), Fire(OnSelectOpened)]
  }

  /** `APPROX_STATUSBAR_HEIGHT || 0`: an absent status-bar height counts as 0. */
  function StatusBarOffset(screen: Screen): (r: real)
    ensures screen.statusBar.Nothing? ==> r == 0.0
    ensures screen.statusBar.Just? ==> r == screen.statusBar.value
  {
    if screen.statusBar.Just? then screen.statusBar.value else 0.0
  }

  /** Where the options list goes once both measurements are in: above the
      control when it would run past the bottom of the screen, below it
      otherwise, horizontally mirrored under a right-to-left layout. */
  function OptionsListPosition(m: Measurement, screen: Screen): (p: Placement)
    ensures p.aboveSelectControl <==> m.control.y + m.control.height + m.listHeight > screen.height
    // above: the list's bottom edge meets the control's top edge
    ensures p.aboveSelectControl ==> p.top + m.listHeight == m.control.y + StatusBarOffset(screen)
    // below: the list's top edge, in the modal's coordinates, meets the control's bottom edge
    ensures !p.aboveSelectControl ==>
              p.top + screen.valueY == m.control.y + m.control.height + StatusBarOffset(screen)
    ensures p.width == m.control.width
    // right-to-left: the list's right margin equals the control's left offset
    ensures screen.isRTL ==> screen.width - (p.left + p.width) == m.control.x
    ensures !screen.isRTL ==> p.left == m.control.x
  {
    var c := m.control;
    var isOverflow := c.y + c.height + m.listHeight > screen.height;
    var top := if isOverflow then c.y - m.listHeight + StatusBarOffset(screen)
               else c.y + c.height - screen.valueY + StatusBarOffset(screen);
    var left := if screen.isRTL then screen.width - c.width - c.x else c.x;
    Placement(c.width, top, left, isOverflow)
  }

  /** `await setOptionsListPosition()`: the position is dispatched once both
      measurements resolve; `Nothing` stands for a measurement that never
      resolves (its ref is unset), so nothing is dispatched. */
  function PositionEffects(m: Maybe<Measurement>, screen: Screen): (r: seq<Effect>)
    ensures m.Nothing? ==> r == []
    ensures m.Just? ==> Dispatched(r) == [SetOptionsListPosition(OptionsListPosition(m.value, screen))]
    ensures Fired(r) == []
  {
    if m.Just? then [Dispatch(SetOptionsListPosition(OptionsListPosition(m.value, screen)))] else []
  }

  /** Pressing the control: nothing when disabled, close when opened,
      otherwise open and position the list if the control can be measured. */
  function OnPressSelectControl(cfg: Config, snap: Snapshot, hasControlRef: bool,
                                m: Maybe<Measurement>, screen: Screen): (r: seq<Effect>)
    ensures cfg.disabled ==> r == []
    ensures !cfg.disabled && snap.isOpened ==> Dispatched(r) == [Close] && Fired(r) == [OnSelectClosed]
    ensures !snap.isOpened && !hasControlRef ==> r == []
    ensures !cfg.disabled && !snap.isOpened && hasControlRef ==>
              Dispatched(r) == [Open] + Dispatched(PositionEffects(m, screen))
              && Fired(r) == [OnSelectOpened]
    ensures !(Open in Dispatched(r) && Close in Dispatched(r))
  {
    if cfg.disabled then []
    else if snap.isOpened then CloseEffects()
    else if hasControlRef then
      DispatchedConcat(OpenEffects(), PositionEffects(m, screen));
      FiredConcat(OpenEffects(), PositionEffects(m, screen));
      OpenEffects() + PositionEffects(m, screen)
    else []
  }

  /** The imperative `open`: like a control press on a closed control, but
      it consults neither `disabled` nor `isOpened`. */
  function ImperativeOpen(hasControlRef: bool, m: Maybe<Measurement>, screen: Screen): (r: seq<Effect>)
    ensures !hasControlRef ==> r == []
    ensures hasControlRef ==>
              Dispatched(r) == [Open] + Dispatched(PositionEffects(m, screen))
              && Fired(r) == [OnSelectOpened]
  {
    if hasControlRef then
      DispatchedConcat(OpenEffects(), PositionEffects(m, screen));
      FiredConcat(OpenEffects(), PositionEffects(m, screen));
      OpenEffects() + PositionEffects(m, screen)
    else []
  }

  datatype Cleared = Cleared(trace: seq<Effect>, result: ClearResult)

  /** The imperative `clear`: always reset the selection, and hand back
      what was selected when its shape matches the mode. `isOptionType` is
      ASSUMED to hold of a single option and `isOptionIndexType` of a
      number. */
  function Clear(cfg: Config, snap: Snapshot): (c: Cleared)
    ensures Dispatched(c.trace) == [SelectOption(Payload(NullOption, OneIndex(-1)))]
    ensures Fired(c.trace) == []
    ensures c.result.RemovedOne? <==>
              !cfg.multiple && snap.selectedOption.OneOption? && snap.selectedOptionIndex.OneIndex?
    ensures c.result.RemovedOne? ==>
              snap.selectedOption == OneOption(c.result.removedSelectedOption)
              && snap.selectedOptionIndex == OneIndex(c.result.removedSelectedOptionIndex)
    ensures c.result.RemovedMany? <==>
              cfg.multiple && snap.selectedOption.ManyOptions? && snap.selectedOptionIndex.ManyIndexes?
    ensures c.result.RemovedMany? ==>
              snap.selectedOption == ManyOptions(c.result.removedSelectedOptions)
              && snap.selectedOptionIndex == ManyIndexes(c.result.removedSelectedOptionsIndexes)
  {
    var trace := [Dispatch(SelectOption(Payload(NullOption, OneIndex(-1))))];
    var sel := snap.selectedOption;
    var idx := snap.selectedOptionIndex;
    // `selectedOption &&` is false only for null: an empty array is truthy
    if !cfg.multiple && !sel.NullOption? && sel.OneOption? && idx.OneIndex? then
      Cleared(trace, RemovedOne(sel.option, idx.index))
    else if cfg.multiple && !sel.NullOption? && !sel.OneOption? && !idx.OneIndex? then
      Cleared(trace, RemovedMany(sel.options, idx.indexes))
    else
      Cleared(trace, NothingRemoved)
  }

  /** `find` on `selectedOptions` by value succeeds: the pressed option's
      value is in the current array selection. */
  predicate AlreadySelected(sel: Selected, option: OptionType): (b: bool)
    ensures b <==> sel.ManyOptions? && exists k :: 0 <= k < |sel.options| && sel.options[k].value == option.value
  {
    var prior := SelectedOptions(sel);
    prior.Just? && HasValue(prior.value, option.value)
  }

  /** `resolveOption`: the selection after pressing `option`, shown at
      `optionIndex`. Single mode replaces; multi mode keeps a selection that
      already holds the value and otherwise appends the option and looks up
      every index afresh. */
  function ResolveOption(cfg: Config, snap: Snapshot, option: OptionType, optionIndex: int): (p: Payload)
    ensures !cfg.multiple ==> p == Payload(OneOption(option), OneIndex(optionIndex))
    ensures cfg.multiple && AlreadySelected(snap.selectedOption, option) ==>
              p == Payload(snap.selectedOption, snap.selectedOptionIndex)
    ensures cfg.multiple && !AlreadySelected(snap.selectedOption, option) ==>
              var flat := FlatOptions(snap.optionsData);
              && p.selectedOption == ManyOptions(OrEmpty(SelectedOptions(snap.selectedOption)) + [option])
              && p.selectedOptionIndex.ManyIndexes?
              && |p.selectedOptionIndex.indexes| == |p.selectedOption.options|
              // an option missing from the data keeps -1 in its slot
              && forall k :: 0 <= k < |p.selectedOption.options| ==>
                   p.selectedOptionIndex.indexes[k] == FirstIndex(flat, p.selectedOption.options[k].value)
  {
    if !cfg.multiple then Payload(OneOption(option), OneIndex(optionIndex))
    else
      var prior := SelectedOptions(snap.selectedOption);
      if prior.Just? && HasValue(prior.value, option.value) then
        // `typeof selectedOptionIndex === 'number' ? it : [...it]` copies the index as it is
        Payload(ManyOptions(prior.value), snap.selectedOptionIndex)
      else
        var merged := if prior.Just? then prior.value + [option] else [option];
        var flat := FlatOptions(snap.optionsData);
        // the `!== null` filter keeps every entry: `findIndex` yields -1, never null
        var indexes := seq(|merged|, k requires 0 <= k < |merged| => FirstIndex(flat, merged[k].value));
        Payload(ManyOptions(merged), if |indexes| > 0 then ManyIndexes(indexes) else OneIndex(-1))
  }

  /** The search text `onPressOption` writes, when the list is searchable. */
  function SearchAfterPress(cfg: Config, option: OptionType): (r: seq<Effect>)
    ensures Fired(r) == []
    ensures cfg.searchable ==>
              Dispatched(r) == [SetSearchValue(if cfg.multiple then [] else option.labelText)]
    ensures !cfg.searchable ==> r == []
  {
    if !cfg.searchable then []
    else if cfg.multiple then [Dispatch(SetSearchValue([]))]
    else [Dispatch(SetSearchValue(option.labelText))]
  }

  /** `close()` when `cond` holds, nothing otherwise. */
  function CloseIf(cond: bool): (r: seq<Effect>)
    ensures |r| == (if cond then 2 else 0)
    ensures Dispatched(r) == (if cond then [Close] else [])
    ensures Fired(r) == (if cond then [OnSelectClosed] else [])
  {
    if cond then CloseEffects() else []
  }

  /** The part of an option press after the optional close: the resolved
      selection, the search update, and `onSelect` last of all. */
  function SelectAndReport(cfg: Config, snap: Snapshot, option: OptionType, optionIndex: int): (r: seq<Effect>)
    ensures Dispatched(r) ==
              [SelectOption(ResolveOption(cfg, snap, option, optionIndex))] + Dispatched(SearchAfterPress(cfg, option))
    ensures Fired(r) == [OnSelect(option, optionIndex)]
    ensures |r| > 0 && r[|r| - 1] == Fire(OnSelect(option, optionIndex))
  {
    var b := [Dispatch(SelectOption(ResolveOption(cfg, snap, option, optionIndex)))];
    var c := SearchAfterPress(cfg, option);
    var d := [Fire(OnSelect(option, optionIndex))];
    DispatchedOne(b[0]);
    DispatchedOne(d[0]);
    DispatchedConcat(b, c);
    DispatchedConcat(b + c, d);
    FiredConcat(b, c);
    FiredConcat(b + c, d);
    b + c + d
  }

  /** `onPressOption`: close first when `closeOptionsListOnSelect` is set
      (in both modes), dispatch the resolved selection, reset the search
      text, and report the press to `onSelect`. */
  function OnPressOption(cfg: Config, snap: Snapshot, option: OptionType, optionIndex: int): (r: seq<Effect>)
    ensures Dispatched(r) ==
              (if cfg.closeOptionsListOnSelect then [Close] else [])
              + [SelectOption(ResolveOption(cfg, snap, option, optionIndex))]
              + Dispatched(SearchAfterPress(cfg, option))
    ensures Fired(r) ==
              (if cfg.closeOptionsListOnSelect then [OnSelectClosed] else [])
              + [OnSelect(option, optionIndex)]
    // `onSelect` is the last effect, after every dispatch
    ensures |r| > 0 && r[|r| - 1] == Fire(OnSelect(option, optionIndex))
    ensures cfg.closeOptionsListOnSelect ==> |r| >= 2 && r[..2] == CloseEffects()
  {
    var a := CloseIf(cfg.closeOptionsListOnSelect);
    var m := SelectAndReport(cfg, snap, option, optionIndex);
    DispatchedConcat(a, m);
    FiredConcat(a, m);
    assert (a + m)[..|a|] == a;
    a + m
  }

  /** The section's options as `onPressSection` sees them: those of the
      first section called `title` (none when there is no such section),
      each tagged with that title and that section's position. */
  function SectionOptions(sections: seq<Section>, title: string): (r: seq<OptionType>)
    ensures var i := SectionIndex(sections, title);
            && (i == -1 ==> r == [])
            && (0 <= i ==> (|r| == |sections[i].data|
                  && forall k :: 0 <= k < |r| ==>
                       r[k] == sections[i].data[k].(section := InSection(title, i))))
  {
    var i := SectionIndex(sections, title);
    var data := if i == -1 then [] else sections[i].data;
    seq(|data|, k requires 0 <= k < |data| => data[k].(section := InSection(title, i)))
  }

  /** What the section press hands to the caller's callback, and the
      selection it dispatches. */
  datatype SectionOutcome = SectionOutcome(callback: Callback, payload: Payload)

  /** The removal branch of the section resolver, taken when every option
      of `section` is already among `prior`: the whole section is reported,
      and the rest of the selection stays, in order. */
  function SectionRemoved(sections: seq<Section>, section: seq<OptionType>, prior: seq<OptionType>): (o: SectionOutcome)
    ensures o.callback == OnSectionRemove(section, SectionOptionsIndexes(sections, section))
    ensures o.payload.selectedOptionIndex.ManyIndexes?
    ensures o.payload.selectedOption.NullOption? <==> AllSelected(prior, section)
    ensures o.payload.selectedOption.NullOption? ==> o.payload.selectedOptionIndex == ManyIndexes([])
    ensures o.payload.selectedOption.ManyOptions? ==>
              var rest := o.payload.selectedOption.options;
              && IsSubseq(rest, prior)
              && (forall x :: x in rest <==> x in prior && !HasValue(section, x.value))
              && o.payload.selectedOptionIndex.indexes == SectionOptionsIndexes(sections, rest)
    ensures !o.payload.selectedOption.OneOption?
  {
    // `restOptions` is always an array, so the index is always looked up
    var rest := Without(prior, section);
    WithoutEmpty(prior, section);
    SectionOutcome(
      OnSectionRemove(section, SectionOptionsIndexes(sections, section)),
      Payload(if |rest| > 0 then ManyOptions(rest) else NullOption,
              ManyIndexes(SectionOptionsIndexes(sections, rest))))
  }

  /** The addition branch of the section resolver: exactly the options of
      `section` whose value is not among `prior`, in section order, are
      reported and appended, after which every value of the section is
      selected. */
  function SectionAdded(sections: seq<Section>, section: seq<OptionType>, prior: seq<OptionType>): (o: SectionOutcome)
    ensures o.callback.OnSectionSelect?
    ensures var added := o.callback.added;
            && IsSubseq(added, section)
            && (forall x :: x in added <==> x in section && !HasValue(prior, x.value))
            && o.callback.addedIndexes == SectionOptionsIndexes(sections, added)
            && o.payload.selectedOption == ManyOptions(prior + added)
            && AllSelected(section, prior + added)
            && (o.payload.selectedOptionIndex.ManyIndexes? ==>
                  o.payload.selectedOptionIndex.indexes == SectionOptionsIndexes(sections, prior + added)
                  && |o.payload.selectedOptionIndex.indexes| > 0)
            && (o.payload.selectedOptionIndex.OneIndex? ==>
                  o.payload.selectedOptionIndex.index == -1
                  && SectionOptionsIndexes(sections, prior + added) == [])
  {
    var added := Without(section, prior);
    var merged := prior + added;
    AddedCoversSection(section, prior);
    var indexes := SectionOptionsIndexes(sections, merged);
    SectionOutcome(
      OnSectionSelect(added, SectionOptionsIndexes(sections, added)),
      Payload(ManyOptions(merged), if |indexes| > 0 then ManyIndexes(indexes) else OneIndex(-1)))
  }

  /** The resolver inside `onPressSection` (sectioned data, multi mode): it
      removes the section when a selection exists and none of the
      section's options is unselected, and adds the unselected ones
      otherwise. */
  function ResolveSection(sections: seq<Section>, selected: Selected, title: string): (o: SectionOutcome)
    ensures var section := SectionOptions(sections, title);
            var prior := SelectedOptions(selected);
            && (o.callback.OnSectionRemove? <==> prior.Just? && AllSelected(section, prior.value))
            && (o.callback.OnSectionRemove? ==> o == SectionRemoved(sections, section, prior.value))
            && (!o.callback.OnSectionRemove? ==> o == SectionAdded(sections, section, OrEmpty(prior)))
  {
    var section := SectionOptions(sections, title);
    var prior := SelectedOptions(selected);
    // `!selectedOptions?.some(...)` keeps every option when nothing is selected
    var added := Without(section, OrEmpty(prior));
    WithoutEmpty(section, OrEmpty(prior));
    if |added| == 0 && prior.Just? then SectionRemoved(sections, section, prior.value)
    else
      // `selectedOptions ? selectedOptions.concat(new) : new`
      SectionAdded(sections, section, OrEmpty(prior))
  }

  /** `onPressSection`: close first when `closeOptionsListOnSelect` and
      `multiple` both hold; only in multi mode over sectioned data does it go
      on to report the section, then dispatch the selection, then clear the
      search text. */
  function OnPressSection(cfg: Config, snap: Snapshot, title: string): (r: seq<Effect>)
    ensures !(cfg.multiple && IsSectionOptionsType(snap.optionsData)) ==>
              Dispatched(r) == (if cfg.closeOptionsListOnSelect && cfg.multiple then [Close] else [])
              && Fired(r) == (if cfg.closeOptionsListOnSelect && cfg.multiple then [OnSelectClosed] else [])
    ensures cfg.multiple && IsSectionOptionsType(snap.optionsData) ==>
              var o := ResolveSection(snap.optionsData.sections, snap.selectedOption, title);
              var n := if cfg.closeOptionsListOnSelect then 2 else 0;
              && Dispatched(r) ==
                   (if cfg.closeOptionsListOnSelect then [Close] else [])
                   + [SelectOption(o.payload)]
                   + (if cfg.searchable then [SetSearchValue([])] else [])
              && Fired(r) == (if cfg.closeOptionsListOnSelect then [OnSelectClosed] else []) + [o.callback]
              // the callback fires while the dispatch's payload is computed, so just before it
              && n + 2 <= |r| && r[n] == Fire(o.callback) && r[n + 1] == Dispatch(SelectOption(o.payload))
  {
    var a := CloseIf(cfg.closeOptionsListOnSelect && cfg.multiple);
    if !cfg.multiple || !IsSectionOptionsType(snap.optionsData) then a
    else
      SectionPressEffects(cfg.closeOptionsListOnSelect, cfg.searchable,
                          ResolveSection(snap.optionsData.sections, snap.selectedOption, title))
  }

  /** The search text a section press clears, when the list is searchable. */
  function SearchReset(searchable: bool): (r: seq<Effect>)
    ensures Dispatched(r) == (if searchable then [SetSearchValue([])] else [])
    ensures Fired(r) == []
  {
    if searchable then [Dispatch(SetSearchValue([]))] else []
  }

  /** The part of a section press after the optional close: the callback,
      then the selection it computed, then the optional search reset. */
  function ReportAndSelect(searchable: bool, o: SectionOutcome): (r: seq<Effect>)
    ensures 2 <= |r| && r[0] == Fire(o.callback) && r[1] == Dispatch(SelectOption(o.payload))
    ensures Dispatched(r) == [SelectOption(o.payload)] + (if searchable then [SetSearchValue([])] else [])
    ensures Fired(r) == [o.callback]
  {
    var b := [Fire(o.callback), Dispatch(SelectOption(o.payload))];
    var d := SearchReset(searchable);
    DispatchedPair(Fire(o.callback), Dispatch(SelectOption(o.payload)));
    DispatchedOne(Fire(o.callback));
    DispatchedOne(Dispatch(SelectOption(o.payload)));
    DispatchedConcat(b, d);
    FiredConcat(b, d);
    b + d
  }

  /** The effects of a section press once the section is resolved: the
      optional close, the callback, the selection, the optional search reset. */
  function SectionPressEffects(closes: bool, searchable: bool, o: SectionOutcome): (r: seq<Effect>)
    ensures Dispatched(r) ==
              (if closes then [Close] else [])
              + [SelectOption(o.payload)]
              + (if searchable then [SetSearchValue([])] else [])
    ensures Fired(r) == (if closes then [OnSelectClosed] else []) + [o.callback]
    ensures var n := if closes then 2 else 0;
            n + 2 <= |r| && r[n] == Fire(o.callback) && r[n + 1] == Dispatch(SelectOption(o.payload))
  {
    var a := CloseIf(closes);
    var b := ReportAndSelect(searchable, o);
    DispatchedConcat(a, b);
    FiredConcat(a, b);
    a + b
  }

  /** `onOutsidePress`: restore the search text to the selected option's
      label (a single, non-empty label, searchable list only), then close. */
  function OnOutsidePress(cfg: Config, snap: Snapshot): (r: seq<Effect>)
    ensures Fired(r) == [OnSelectClosed]
    ensures Dispatched(r) ==
              (if cfg.searchable && snap.selectedOption.OneOption? && |snap.selectedOption.option.labelText| > 0
               then [SetSearchValue(snap.selectedOption.option.labelText)] else [])
              + [Close]
    ensures forall s :: SetSearchValue(s) in Dispatched(r) <==>
              cfg.searchable && snap.selectedOption.OneOption?
              && s == snap.selectedOption.option.labelText && |s| > 0
  {
    var shown := SelectedOptionLabel(snap.selectedOption);
    // an empty label is falsy
    var a := if shown.Just? && |shown.value| > 0 && cfg.searchable
             then [Dispatch(SetSearchValue(shown.value))] else [];
    DispatchedConcat(a, CloseEffects());
    FiredConcat(a, CloseEffects());
    a + CloseEffects()
  }
}
