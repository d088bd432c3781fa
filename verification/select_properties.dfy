/** Properties that relate several calls of the handlers, or a handler and
    an independent description of what it should do. */
module SelectProperties {
  import opened SelectTypes
  import opened SelectHelpers
  import opened HelperLaws
  import opened Trace
  import opened SelectHooks

  /** The selection a snapshot holds, as a `selectOption` payload. */
  function Current(snap: Snapshot): Payload {
    Payload(snap.selectedOption, snap.selectedOptionIndex)
  }

  /** The snapshot after the reducer stored `p` as the selection (the only
      part of the reducer these lemmas rely on, and only as a hypothesis). */
  function Holding(snap: Snapshot, p: Payload): Snapshot {
    snap.(selectedOption := p.selectedOption, selectedOptionIndex := p.selectedOptionIndex)
  }

  /** Single mode: the press selects exactly the pressed option at its index,
      whatever was selected before; a `close` comes first exactly when
      `closeOptionsListOnSelect` is set. */
  lemma SinglePressReplacesSelection(cfg: Config, before: Snapshot, other: Snapshot, option: OptionType, optionIndex: int)
    requires !cfg.multiple
    ensures var acts := Dispatched(OnPressOption(cfg, before, option, optionIndex));
            && SelectOption(Payload(OneOption(option), OneIndex(optionIndex))) in acts
            && ResolveOption(cfg, before, option, optionIndex) == ResolveOption(cfg, other, option, optionIndex)
            && (Close in acts <==> cfg.closeOptionsListOnSelect)
            && (cfg.closeOptionsListOnSelect ==>
                  acts[0] == Close && acts[1] == SelectOption(Payload(OneOption(option), OneIndex(optionIndex))))
            && (!cfg.closeOptionsListOnSelect ==>
                  acts[0] == SelectOption(Payload(OneOption(option), OneIndex(optionIndex))))
  {
  }

  /** In either mode an option press closes the list exactly when
      `closeOptionsListOnSelect` is set, and then before anything else. */
  lemma OptionPressClosesIffFlag(cfg: Config, snap: Snapshot, option: OptionType, optionIndex: int)
    ensures var acts := Dispatched(OnPressOption(cfg, snap, option, optionIndex));
            && (Close in acts <==> cfg.closeOptionsListOnSelect)
            && (cfg.closeOptionsListOnSelect ==> acts[0] == Close)
            && Fired(OnPressOption(cfg, snap, option, optionIndex))[|Fired(OnPressOption(cfg, snap, option, optionIndex))| - 1]
                 == OnSelect(option, optionIndex)
  {
  }

  /** Multi mode: pressing an option whose value is already selected
      dispatches the current selection unchanged. */
  lemma MultiPressSelectedIsNoOp(cfg: Config, snap: Snapshot, option: OptionType, optionIndex: int)
    requires cfg.multiple
    requires snap.selectedOption.ManyOptions? && HasValue(snap.selectedOption.options, option.value)
    ensures ResolveOption(cfg, snap, option, optionIndex) == Current(snap)
  {
  }

  /** Multi mode: pressing the same option twice, the second time on the
      selection the first press dispatched, dispatches the same selection. */
  lemma MultiPressTwiceIdempotent(cfg: Config, snap: Snapshot, option: OptionType, optionIndex: int)
    requires cfg.multiple
    ensures var p := ResolveOption(cfg, snap, option, optionIndex);
            ResolveOption(cfg, Holding(snap, p), option, optionIndex) == p
  {
    var p := ResolveOption(cfg, snap, option, optionIndex);
    if !AlreadySelected(snap.selectedOption, option) {
      var opts := p.selectedOption.options;
      assert opts[|opts| - 1] == option;
      assert AlreadySelected(Holding(snap, p).selectedOption, option);
    }
  }

  /** Multi mode: pressing an option absent from the data still appends it,
      and its slot in the index array is -1. */
  lemma MultiPressUnknownOptionKeepsMinusOne(cfg: Config, snap: Snapshot, option: OptionType, optionIndex: int)
    requires cfg.multiple && !AlreadySelected(snap.selectedOption, option)
    requires !HasValue(FlatOptions(snap.optionsData), option.value)
    ensures var p := ResolveOption(cfg, snap, option, optionIndex);
            && p.selectedOptionIndex.ManyIndexes?
            && |p.selectedOptionIndex.indexes| > 0
            && p.selectedOptionIndex.indexes[|p.selectedOptionIndex.indexes| - 1] == -1
  {
  }

  /** A section press dispatches a selection only in multi mode over
      sectioned data (a non-empty array of sections), and closes exactly when `closeOptionsListOnSelect` and
      `multiple` both hold. */
  lemma SectionPressGate(cfg: Config, snap: Snapshot, title: string)
    ensures var acts := Dispatched(OnPressSection(cfg, snap, title));
            && ((exists a :: a in acts && a.SelectOption?) <==> cfg.multiple && IsSectionOptionsType(snap.optionsData))
            && (Close in acts <==> cfg.closeOptionsListOnSelect && cfg.multiple)
  {
    var acts := Dispatched(OnPressSection(cfg, snap, title));
    var closes := if cfg.closeOptionsListOnSelect && cfg.multiple then [Close] else [];
    if cfg.multiple && IsSectionOptionsType(snap.optionsData) {
      var o := ResolveSection(snap.optionsData.sections, snap.selectedOption, title);
      var search := if cfg.searchable then [SetSearchValue([])] else [];
      assert acts == closes + [SelectOption(o.payload)] + search;
      assert acts[|closes|] == SelectOption(o.payload);
    } else {
      assert acts == closes;
    }
  }

  /** Every option of the pressed section lies in the flattened list, so
      the indexes reported with it are exactly the section's first flat
      positions, one per option. */
  lemma {:induction false} SectionIndexesAreFlatPositions(sections: seq<Section>, title: string)
    ensures var section := SectionOptions(sections, title);
            var ix := SectionOptionsIndexes(sections, section);
            && |ix| == |section|
            && forall k :: 0 <= k < |section| ==>
                 0 <= ix[k] && ix[k] == FirstIndex(Flatten(sections), section[k].value)
  {
    var section := SectionOptions(sections, title);
    var i := SectionIndex(sections, title);
    var flat := Flatten(sections);
    forall k | 0 <= k < |section| ensures HasValue(flat, section[k].value) {
      var raw := sections[i].data[k];
      assert raw in sections[i].data;
      assert raw in flat;
      var j :| 0 <= j < |flat| && flat[j] == raw;
      assert flat[j].value == section[k].value;
    }
  }

  /** Pressing a section none of whose values is selected, and then the same
      section again on the selection the first press dispatched, gives back
      the original options (or null when there were none). */
  lemma {:induction false} SectionToggleRoundTrip(sections: seq<Section>, prior: seq<OptionType>, title: string)
    requires var section := SectionOptions(sections, title);
             && |section| > 0
             && forall k :: 0 <= k < |section| ==> !HasValue(prior, section[k].value)
    ensures var first := ResolveSection(sections, ManyOptions(prior), title);
            var second := ResolveSection(sections, first.payload.selectedOption, title);
            && first.callback == OnSectionSelect(SectionOptions(sections, title),
                                                 SectionOptionsIndexes(sections, SectionOptions(sections, title)))
            && second.callback.OnSectionRemove?
            && second.payload.selectedOption == (if |prior| > 0 then ManyOptions(prior) else NullOption)
  {
    var section := SectionOptions(sections, title);
    DisjointWithout(section, prior);
    var first := ResolveSection(sections, ManyOptions(prior), title);
    assert !AllSelected(section, prior) by {
      assert !HasValue(prior, section[0].value);
    }
    assert first == SectionAdded(sections, section, prior);
    assert first.payload.selectedOption == ManyOptions(prior + section);
    var second := ResolveSection(sections, ManyOptions(prior + section), title);
    assert second == SectionRemoved(sections, section, prior + section);
  }

  /** An empty options array is one value whichever tag it carries: every
      handler that reads the data behaves the same on both. */
  lemma EmptyDataIsOneValue(cfg: Config, snap: Snapshot, option: OptionType, optionIndex: int, title: string)
    ensures var flat := snap.(optionsData := Flat([]));
            var sectioned := snap.(optionsData := Sectioned([]));
            && OnPressSection(cfg, sectioned, title) == OnPressSection(cfg, flat, title)
            && OnPressOption(cfg, sectioned, option, optionIndex) == OnPressOption(cfg, flat, option, optionIndex)
  {
  }

  /** With nothing selected, pressing an empty or unknown section selects an
      empty array with index -1; with an empty array selected, the same press
      takes the removal path and yields null with an empty index array. */
  lemma EmptySectionPress(sections: seq<Section>, title: string)
    requires SectionOptions(sections, title) == []
    ensures ResolveSection(sections, NullOption, title)
              == SectionOutcome(OnSectionSelect([], []), Payload(ManyOptions([]), OneIndex(-1)))
    ensures ResolveSection(sections, ManyOptions([]), title)
              == SectionOutcome(OnSectionRemove([], []), Payload(NullOption, ManyIndexes([])))
  {
  }

  /** Every selection a handler dispatches keeps the shape of the mode,
      provided the snapshot's selection already did. */
  predicate PayloadsConsistent(multiple: bool, acts: seq<Action>) {
    forall a :: a in acts && a.SelectOption? ==> ModeConsistent(multiple, a.payload)
  }

  lemma HandlersKeepSelectionShape(cfg: Config, snap: Snapshot, option: OptionType, optionIndex: int, title: string)
    requires ModeConsistent(cfg.multiple, Current(snap))
    ensures PayloadsConsistent(cfg.multiple, Dispatched(OnPressOption(cfg, snap, option, optionIndex)))
    ensures PayloadsConsistent(cfg.multiple, Dispatched(OnPressSection(cfg, snap, title)))
    ensures PayloadsConsistent(cfg.multiple, Dispatched(Clear(cfg, snap).trace))
  {
  }

  /** An outside press puts back the search text a single-mode option press
      wrote: once the pressed option is held, the press outside the list
      writes its label again (when it is non-empty) and closes. In multi
      mode an outside press only closes. */
  lemma OutsidePressRestoresPressedLabel(cfg: Config, snap: Snapshot, option: OptionType, optionIndex: int)
    requires cfg.searchable
    ensures !cfg.multiple && |option.labelText| > 0 ==>
              var p := ResolveOption(cfg, snap, option, optionIndex);
              && SetSearchValue(option.labelText) in Dispatched(OnPressOption(cfg, snap, option, optionIndex))
              && Dispatched(OnOutsidePress(cfg, Holding(snap, p))) == [SetSearchValue(option.labelText), Close]
    ensures cfg.multiple && ModeConsistent(true, Current(snap)) ==>
              Dispatched(OnOutsidePress(cfg, snap)) == [Close]
  {
  }

  /** The selection `clear` hands back, as a payload. */
  function Restored(r: ClearResult): Payload {
    match r
    case RemovedOne(o, i) => Payload(OneOption(o), OneIndex(i))
    case RemovedMany(os, ix) => Payload(ManyOptions(os), ManyIndexes(ix))
    case NothingRemoved => Payload(NullOption, OneIndex(-1))
  }

  /** On a selection of the mode's shape, `clear` hands back exactly what
      was selected, except a multi selection whose index is -1 (an empty
      array, or options missing from the data), which it reports as nothing
      removed. */
  lemma ClearReturnsSelection(cfg: Config, snap: Snapshot)
    requires ModeConsistent(cfg.multiple, Current(snap))
    ensures var r := Clear(cfg, snap).result;
            && (r.NothingRemoved? <==>
                  snap.selectedOption.NullOption? || (cfg.multiple && snap.selectedOptionIndex == OneIndex(-1)))
            && (!r.NothingRemoved? ==> Restored(r) == Current(snap))
  {
  }

  /** The imperative `open` behaves as a press on an enabled, closed
      control, but ignores `disabled`: a disabled control that a press
      leaves closed is still opened through the handle. */
  lemma ImperativeOpenIgnoresDisabled(cfg: Config, snap: Snapshot, m: Maybe<Measurement>, screen: Screen)
    requires !snap.isOpened
    ensures !cfg.disabled ==> Dispatched(ImperativeOpen(true, m, screen))
                                == Dispatched(OnPressSelectControl(cfg, snap, true, m, screen))
    ensures cfg.disabled ==> Dispatched(OnPressSelectControl(cfg, snap, true, m, screen)) == []
                             && Dispatched(ImperativeOpen(true, m, screen))[0] == Open
  {
  }

  /** Under right-to-left layout the list sits where the left-to-right list
      would sit reflected in the screen's vertical midline. */
  lemma PlacementMirrors(m: Measurement, screen: Screen)
    ensures var ltr := OptionsListPosition(m, screen.(isRTL := false));
            var rtl := OptionsListPosition(m, screen.(isRTL := true));
            && rtl.left + rtl.width == screen.width - ltr.left
            && rtl.top == ltr.top && rtl.aboveSelectControl == ltr.aboveSelectControl
  {
  }

  /** The overflow examples: a 40-high control at y = 700 with a 200-high
      list goes above on an 800-high screen and below on a 1000-high one;
      on a 400-wide screen a control at x = 50, 100 wide, gets left = 250
      under right-to-left layout and 50 otherwise. */
  lemma PlacementExamples()
    ensures var m := Measurement(Rect(50.0, 700.0, 100.0, 40.0), 200.0);
            && OptionsListPosition(m, Screen(400.0, 800.0, 0.0, Nothing, false)).aboveSelectControl
            && !OptionsListPosition(m, Screen(400.0, 1000.0, 0.0, Nothing, false)).aboveSelectControl
            && OptionsListPosition(m, Screen(400.0, 800.0, 0.0, Nothing, true)).left == 250.0
            && OptionsListPosition(m, Screen(400.0, 800.0, 0.0, Nothing, false)).left == 50.0
  {
  }

  /** Flattening sections A = [o1, o2] and B = [o3] gives [o1, o2, o3], and
      o3's index is 2 when the three values differ. */
  lemma FlattenExample(o1: OptionType, o2: OptionType, o3: OptionType)
    requires o1.value != o3.value && o2.value != o3.value
    ensures var sections := [Section("A", [o1, o2]), Section("B", [o3])];
            && Flatten(sections) == [o1, o2, o3]
            && SectionOptionsIndexes(sections, [o3]) == [2]
  {
    var sections := [Section("A", [o1, o2]), Section("B", [o3])];
    assert sections[1..][1..] == [];
    assert Flatten(sections[1..]) == [o3];
    assert Flatten(sections) == [o1, o2, o3];
    assert HasValue([o1, o2, o3], o3.value) by {
      assert [o1, o2, o3][2].value == o3.value;
    }
  }
}
