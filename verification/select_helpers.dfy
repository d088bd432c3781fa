/** Lookups over option lists, and the helpers select.hooks.ts imports from
    `../../helpers` (`getReducedSectionData`, `getSectionOptionsIndexes`,
    `selectedOptionResolver`). The helpers' source is not part of this
    model; the definitions below are ASSUMED, as stated on each one. */
module SelectHelpers {
  import opened SelectTypes

  /** Some option in `opts` carries value `v` (`Array.prototype.some`,
      `find` returning an option, `findIndex` not returning -1). */
  predicate HasValue(opts: seq<OptionType>, v: Value) {
    exists k :: 0 <= k < |opts| && opts[k].value == v
  }

  /** `findIndex` by value: the first position of `v`, or -1. */
  function FirstIndex(opts: seq<OptionType>, v: Value): (r: int)
    ensures -1 <= r < |opts|
    ensures r == -1 <==> !HasValue(opts, v)
    ensures 0 <= r ==> opts[r].value == v && forall k :: 0 <= k < r ==> opts[k].value != v
  {
    if |opts| == 0 then -1
    else if opts[0].value == v then 0
    else
      var t := FirstIndex(opts[1..], v);
      assert forall k :: 1 <= k < |opts| ==> opts[k] == opts[1..][k - 1];
      if t == -1 then -1 else t + 1
  }

  /** `findIndex` by title over the sections: the first section called
      `title`, or -1. `find` by title picks the same section. */
  function SectionIndex(sections: seq<Section>, title: string): (r: int)
    ensures -1 <= r < |sections|
    ensures r == -1 <==> forall k :: 0 <= k < |sections| ==> sections[k].title != title
    ensures 0 <= r ==> sections[r].title == title && forall k :: 0 <= k < r ==> sections[k].title != title
  {
    if |sections| == 0 then -1
    else if sections[0].title == title then 0
    else
      var t := SectionIndex(sections[1..], title);
      assert forall k :: 1 <= k < |sections| ==> sections[k] == sections[1..][k - 1];
      if t == -1 then -1 else t + 1
  }

  /** ASSUMED definition of `getReducedSectionData`: every section's
      options, in section order, concatenated. A position in this sequence
      is what the widget calls an option's index. */
  function Flatten(sections: seq<Section>): (r: seq<OptionType>)
    ensures forall x :: x in r <==> exists s :: 0 <= s < |sections| && x in sections[s].data
  {
    if |sections| == 0 then []
    else
      var rest := Flatten(sections[1..]);
      assert forall s :: 1 <= s < |sections| ==> sections[s] == sections[1..][s - 1];
      assert forall x :: x in rest ==> x in sections[1..][SomeSection(sections[1..], x)].data;
      sections[0].data + rest
  }

  /** A section holding `x`, for a member of the flattened list. */
  function SomeSection(sections: seq<Section>, x: OptionType): (s: nat)
    requires exists s :: 0 <= s < |sections| && x in sections[s].data
    ensures s < |sections| && x in sections[s].data
  {
    if x in sections[0].data then 0
    else
      assert forall s :: 1 <= s < |sections| ==> sections[s] == sections[1..][s - 1];
      1 + SomeSection(sections[1..], x)
  }

  /** ASSUMED definition of `isSectionOptionsType`: the data is sectioned
      when its first element is a section. An empty array has no first
      element and counts as flat, whichever tag it carries here. */
  predicate IsSectionOptionsType(data: OptionsData): (b: bool)
    ensures data.Flat? ==> !b
    ensures data.Sectioned? ==> (b <==> data.sections != [])
  {
    data.Sectioned? && |data.sections| > 0
  }

  /** The index space of an options list: the list itself, or its sections
      flattened. */
  function FlatOptions(data: OptionsData): (r: seq<OptionType>)
    ensures data.Flat? ==> r == data.options
    ensures data.Sectioned? ==>
              forall x :: x in r <==> exists s :: 0 <= s < |data.sections| && x in data.sections[s].data
    ensures data.Sectioned? ==> r == Flatten(data.sections)
    ensures !IsSectionOptionsType(data) && data.Sectioned? ==> r == []
  {
    match data
    case Flat(options) => options
    case Sectioned(sections) => Flatten(sections)
  }

  /** ASSUMED definition of `getSectionOptionsIndexes`: each option's first
      position, by value, in the flattened list, in the options' order;
      options whose value is absent are dropped. */
  function OptionsIndexes(flat: seq<OptionType>, opts: seq<OptionType>): (r: seq<int>)
    ensures |r| <= |opts|
    ensures forall k :: 0 <= k < |r| ==> 0 <= r[k] < |flat|
    ensures (forall k :: 0 <= k < |opts| ==> HasValue(flat, opts[k].value)) ==>
              |r| == |opts| && forall k :: 0 <= k < |opts| ==> r[k] == FirstIndex(flat, opts[k].value)
    ensures (forall k :: 0 <= k < |opts| ==> !HasValue(flat, opts[k].value)) ==> r == []
  {
    if |opts| == 0 then []
    else
      var i := FirstIndex(flat, opts[0].value);
      var rest := OptionsIndexes(flat, opts[1..]);
      assert forall k :: 1 <= k < |opts| ==> opts[k] == opts[1..][k - 1];
      if i == -1 then rest else [i] + rest
  }

  /** `getSectionOptionsIndexes(optionsData, opts)`: the lookup runs over
      the flattened sections. */
  function SectionOptionsIndexes(sections: seq<Section>, opts: seq<OptionType>): (r: seq<int>)
    ensures |r| <= |opts|
    ensures forall k :: 0 <= k < |r| ==> 0 <= r[k] < |Flatten(sections)|
    ensures (forall k :: 0 <= k < |opts| ==> HasValue(Flatten(sections), opts[k].value)) ==>
              |r| == |opts| && forall k :: 0 <= k < |opts| ==> r[k] == FirstIndex(Flatten(sections), opts[k].value)
  {
    OptionsIndexes(Flatten(sections), opts)
  }

  /** ASSUMED part of `selectedOptionResolver`: `selectedOptions` is the
      selection when it is an array, and undefined otherwise. */
  function SelectedOptions(s: Selected): (r: Maybe<seq<OptionType>>)
    ensures r.Just? <==> s.ManyOptions?
    ensures r.Just? ==> ManyOptions(r.value) == s
  {
    if s.ManyOptions? then Just(s.options) else Nothing
  }

  /** ASSUMED part of `selectedOptionResolver`: `selectedOptionLabel` is the
      option's label when a single option is selected, and undefined
      otherwise. */
  function SelectedOptionLabel(s: Selected): (r: Maybe<string>)
    ensures r.Just? <==> s.OneOption?
    ensures r.Just? ==> r.value == s.option.labelText
  {
    if s.OneOption? then Just(s.option.labelText) else Nothing
  }

  /** Every option of `section` has its value in `sel`. */
  predicate AllSelected(section: seq<OptionType>, sel: seq<OptionType>) {
    forall k :: 0 <= k < |section| ==> HasValue(sel, section[k].value)
  }

  /** An undefined `selectedOptions` behaves as an empty array wherever the
      hook tests membership in it. */
  function OrEmpty(m: Maybe<seq<OptionType>>): seq<OptionType> {
    if m.Just? then m.value else []
  }

  /** `a` is `b` with some elements deleted, order kept. */
  predicate IsSubseq(a: seq<OptionType>, b: seq<OptionType>)
    decreases |b|
  {
    if |b| == 0 then |a| == 0
    else (|a| > 0 && a[0] == b[0] && IsSubseq(a[1..], b[1..])) || IsSubseq(a, b[1..])
  }

  /** The `filter` that keeps the options of `xs` whose value appears
      nowhere in `ys`. */
  function Without(xs: seq<OptionType>, ys: seq<OptionType>): (r: seq<OptionType>)
    ensures |r| <= |xs|
    ensures forall x :: x in r <==> x in xs && !HasValue(ys, x.value)
    ensures IsSubseq(r, xs)
  {
    if |xs| == 0 then []
    else
      var rest := Without(xs[1..], ys);
      assert forall x :: x in xs <==> x == xs[0] || x in xs[1..];
      if HasValue(ys, xs[0].value) then rest
      else
        assert ([xs[0]] + rest)[1..] == rest;
        [xs[0]] + rest
  }
}

/** Algebra of the helpers, used by the section-press proofs. */
module HelperLaws {
  import opened SelectTypes
  import opened SelectHelpers

  /** Filtering a concatenation filters each part. */
  lemma {:induction false} WithoutConcat(a: seq<OptionType>, b: seq<OptionType>, ys: seq<OptionType>)
    ensures Without(a + b, ys) == Without(a, ys) + Without(b, ys)
    decreases |a|
  {
    if |a| == 0 {
      assert a + b == b;
    } else {
      assert (a + b)[0] == a[0];
      assert (a + b)[1..] == a[1..] + b;
      WithoutConcat(a[1..], b, ys);
    }
  }

  /** Nothing is removed when no value of `xs` occurs in `ys`. */
  lemma {:induction false} WithoutNoneMatch(xs: seq<OptionType>, ys: seq<OptionType>)
    requires forall k :: 0 <= k < |xs| ==> !HasValue(ys, xs[k].value)
    ensures Without(xs, ys) == xs
    decreases |xs|
  {
    if |xs| > 0 {
      assert forall k :: 1 <= k < |xs| ==> xs[1..][k - 1] == xs[k];
      WithoutNoneMatch(xs[1..], ys);
      assert [xs[0]] + xs[1..] == xs;
    }
  }

  /** Every option is removed when every value of `xs` occurs in `ys`. */
  lemma {:induction false} WithoutAllMatch(xs: seq<OptionType>, ys: seq<OptionType>)
    requires forall k :: 0 <= k < |xs| ==> HasValue(ys, xs[k].value)
    ensures Without(xs, ys) == []
    decreases |xs|
  {
    if |xs| > 0 {
      assert forall k :: 1 <= k < |xs| ==> xs[1..][k - 1] == xs[k];
      WithoutAllMatch(xs[1..], ys);
    }
  }

  /** The value filter leaves nothing exactly when every value of `xs`
      occurs in `ys`: `newSectionOptions.length === 0` tests "the whole
      section is selected". */
  lemma WithoutEmpty(xs: seq<OptionType>, ys: seq<OptionType>)
    ensures Without(xs, ys) == [] <==> AllSelected(xs, ys)
  {
    var r := Without(xs, ys);
    if r == [] {
      forall k | 0 <= k < |xs| ensures HasValue(ys, xs[k].value) {
        assert xs[k] !in r;
      }
    } else {
      assert r[0] in r;
    }
  }

  /** Appending to `prior` the options of `section` it lacks leaves every
      value of `section` selected. */
  lemma AddedCoversSection(section: seq<OptionType>, prior: seq<OptionType>)
    ensures AllSelected(section, prior + Without(section, prior))
  {
    var added := Without(section, prior);
    forall k | 0 <= k < |section| ensures HasValue(prior + added, section[k].value) {
      var v := section[k].value;
      if HasValue(prior, v) {
        var j :| 0 <= j < |prior| && prior[j].value == v;
        assert (prior + added)[j] == prior[j];
      } else {
        assert section[k] in added;
        var j :| 0 <= j < |added| && added[j] == section[k];
        assert (prior + added)[|prior| + j] == added[j];
      }
    }
  }

  /** When no value of `section` occurs in `prior`, filtering the section
      back out of `prior + section` gives `prior` again. */
  lemma FilterOutAppended(section: seq<OptionType>, prior: seq<OptionType>)
    requires forall k :: 0 <= k < |section| ==> !HasValue(prior, section[k].value)
    ensures Without(prior + section, section) == prior
  {
    WithoutConcat(prior, section, section);
    // every option finds its own value
    assert forall k :: 0 <= k < |section| ==> HasValue(section, section[k].value);
    WithoutAllMatch(section, section);
    assert forall k :: 0 <= k < |prior| ==> !HasValue(section, prior[k].value) by {
      forall k, j | 0 <= k < |prior| && 0 <= j < |section| ensures section[j].value != prior[k].value {
        assert !HasValue(prior, section[j].value);
      }
    }
    WithoutNoneMatch(prior, section);
    assert Without(section, section) == [];
  }

  /** When no value of `section` occurs in `prior`, the filter keeps all of
      `section`, appending it selects every one of its values, and filtering
      it back out gives `prior` again. */
  lemma DisjointWithout(section: seq<OptionType>, prior: seq<OptionType>)
    requires forall k :: 0 <= k < |section| ==> !HasValue(prior, section[k].value)
    ensures Without(section, prior) == section
    ensures AllSelected(section, prior + section)
    ensures Without(prior + section, section) == prior
  {
    WithoutNoneMatch(section, prior);
    AddedCoversSection(section, prior);
    FilterOutAppended(section, prior);
  }

  /** Looking up the indexes of two lists one after the other gives the
      indexes of their concatenation, present or absent options alike. */
  lemma {:induction false} OptionsIndexesConcat(flat: seq<OptionType>, a: seq<OptionType>, b: seq<OptionType>)
    ensures OptionsIndexes(flat, a + b) == OptionsIndexes(flat, a) + OptionsIndexes(flat, b)
    decreases |a|
  {
    if |a| == 0 {
      assert a + b == b;
    } else {
      assert (a + b)[0] == a[0];
      assert (a + b)[1..] == a[1..] + b;
      OptionsIndexesConcat(flat, a[1..], b);
    }
  }

  /** The index list of one option: its first flat position, or nothing
      when its value is absent. */
  lemma OptionsIndexesOne(flat: seq<OptionType>, x: OptionType)
    ensures OptionsIndexes(flat, [x]) == (if HasValue(flat, x.value) then [FirstIndex(flat, x.value)] else [])
  {
    assert [x][1..] == [];
  }

  /** A single section flattens to its own options, in order; with
      `FlattenConcat` this pins the flattened list completely. */
  lemma FlattenOne(s: Section)
    ensures Flatten([s]) == s.data
  {
    assert [s][1..] == [];
  }

  /** Flattening a concatenation of section lists flattens each list. */
  lemma {:induction false} FlattenConcat(a: seq<Section>, b: seq<Section>)
    ensures Flatten(a + b) == Flatten(a) + Flatten(b)
    decreases |a|
  {
    if |a| == 0 {
      assert a + b == b;
    } else {
      assert (a + b)[0] == a[0];
      assert (a + b)[1..] == a[1..] + b;
      FlattenConcat(a[1..], b);
    }
  }
}
