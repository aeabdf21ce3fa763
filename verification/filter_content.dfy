/**
 * The refinement panel of the category page (components/commerce/filter-content.tsx):
 * which filters are active, which sort is current, whether a refinement value is
 * selected, the label shown for an active filter, and which refinements and
 * active-filter tags are listed.
 *
 * The selection `Record<string, string[]>` is modelled as its `Object.entries`:
 * a sequence of entries in insertion order. A JavaScript object never holds a key
 * twice, which `DistinctKeys` states where it matters.
 */
module FilterContent {
  import opened Wrappers
  import Seqs

  /** One key of the selection object and the values chosen for it. */
  datatype Entry = Entry(attributeId: string, values: seq<string>)

  type Selection = seq<Entry>

  /** One value a refinement offers. */
  datatype RefinementValue = RefinementValue(value: string, displayLabel: Option<string>, hitCount: int)

  /** A refinement (a facet) of the search result. */
  datatype Refinement = Refinement(attributeId: string, displayLabel: Option<string>, values: Option<seq<RefinementValue>>)

  /** A sorting option of the search result. */
  datatype SortOption = SortOption(id: string, displayLabel: string)

  /** One removable tag of the "Active Filters" card. */
  datatype Tag = Tag(attributeId: string, value: string)

  ghost predicate DistinctKeys(sel: Selection)
  {
    forall i, j :: 0 <= i < j < |sel| ==> sel[i].attributeId != sel[j].attributeId
  }

  /** `hasActiveFilters`: the selection object has a key, even one whose list is empty. */
  predicate HasActiveFilters(sel: Selection)
  {
    |sel| > 0
  }

  /** A key with an empty list of values still makes the filters active. */
  lemma EmptyListStillActive(sel: Selection, i: int)
    requires 0 <= i < |sel| && |sel[i].values| == 0
    ensures HasActiveFilters(sel)
    ensures ActiveTags(sel) == ActiveTags(sel[..i]) + ActiveTags(sel[i + 1..])
  {
    ActiveTagsSplit(sel, i);
    assert EntryTags(sel[i]) == [];
    assert ActiveTags(sel[..i]) + [] == ActiveTags(sel[..i]);
  }

  /** `currentSort`: the selected sort unless empty, else the first option's id, else undefined. */
  function CurrentSort(selectedSort: Option<string>, sorts: seq<SortOption>): (r: Option<string>)
    ensures selectedSort.Some? && selectedSort.value != "" ==> r == selectedSort
    ensures (selectedSort.None? || selectedSort.value == "") && |sorts| > 0 ==> r == Some(sorts[0].id)
    ensures r.None? <==> (selectedSort.None? || selectedSort.value == "") && |sorts| == 0
  {
    if selectedSort.Some? && selectedSort.value != "" then selectedSort
    else if |sorts| > 0 then Some(sorts[0].id)
    else None
  }

  /** `selectedRefinements[attributeId]`: the list stored under the key, if any. */
  function Lookup(sel: Selection, attributeId: string): (r: Option<seq<string>>)
    ensures r.None? <==> forall i :: 0 <= i < |sel| ==> sel[i].attributeId != attributeId
    ensures r.Some? ==> exists i :: 0 <= i < |sel| && sel[i] == Entry(attributeId, r.value)
    decreases |sel|
  {
    if |sel| == 0 then None
    else if sel[0].attributeId == attributeId then Some(sel[0].values)
    else
      var r := Lookup(sel[1..], attributeId);
      assert forall i :: 0 < i < |sel| ==> sel[i] == sel[1..][i - 1];
      r
  }

  /** `isValueSelected`: the key is present and its list holds `value`. */
  function IsValueSelected(sel: Selection, attributeId: string, value: string): (r: bool)
    ensures DistinctKeys(sel) ==>
      (r <==> exists i :: 0 <= i < |sel| && sel[i].attributeId == attributeId && value in sel[i].values)
  {
    var found := Lookup(sel, attributeId);
    found.Some? && value in found.value
  }

  /** `i` is the first position of a refinement for `attributeId`. */
  ghost predicate FirstRefinement(refinements: seq<Refinement>, attributeId: string, i: int)
  {
    && 0 <= i < |refinements|
    && refinements[i].attributeId == attributeId
    && forall j :: 0 <= j < i ==> refinements[j].attributeId != attributeId
  }

  /** `i` is the first position of a value `value`. */
  ghost predicate FirstValue(values: seq<RefinementValue>, value: string, i: int)
  {
    && 0 <= i < |values|
    && values[i].value == value
    && forall j :: 0 <= j < i ==> values[j].value != value
  }

  /** A label some refinement for `attributeId` gives to `value`. */
  ghost predicate LabelOf(refinements: seq<Refinement>, attributeId: string, value: string, text: string)
  {
    exists i, j ::
      && 0 <= i < |refinements| && refinements[i].attributeId == attributeId
      && refinements[i].values.Some? && 0 <= j < |refinements[i].values.value|
      && refinements[i].values.value[j] == RefinementValue(value, Some(text), refinements[i].values.value[j].hitCount)
  }

  /** `Array.prototype.find` over refinements by attribute id. */
  function FindRefinement(refinements: seq<Refinement>, attributeId: string): (r: Option<Refinement>)
    ensures r.None? <==> forall i :: 0 <= i < |refinements| ==> refinements[i].attributeId != attributeId
    ensures r.Some? ==> r.value.attributeId == attributeId
    ensures r.Some? ==> exists i :: FirstRefinement(refinements, attributeId, i) && refinements[i] == r.value
    decreases |refinements|
  {
    if |refinements| == 0 then None
    else if refinements[0].attributeId == attributeId then Some(refinements[0])
    else
      var r := FindRefinement(refinements[1..], attributeId);
      assert forall i :: 0 < i < |refinements| ==> refinements[i] == refinements[1..][i - 1];
      r
  }

  /** `Array.prototype.find` over the values of a refinement. */
  function FindValue(values: seq<RefinementValue>, value: string): (r: Option<RefinementValue>)
    ensures r.None? <==> forall i :: 0 <= i < |values| ==> values[i].value != value
    ensures r.Some? ==> r.value.value == value
    ensures r.Some? ==> exists i :: FirstValue(values, value, i) && values[i] == r.value
    decreases |values|
  {
    if |values| == 0 then None
    else if values[0].value == value then Some(values[0])
    else
      var r := FindValue(values[1..], value);
      assert forall i :: 0 < i < |values| ==> values[i] == values[1..][i - 1];
      r
  }

  /**
   * `getFilterDisplayName`: the label of the first matching value of the first
   * matching refinement when that label is non-empty; the raw value otherwise.
   */
  function FilterDisplayName(refinements: seq<Refinement>, attributeId: string, value: string): (r: string)
    ensures r == value || (r != "" && LabelOf(refinements, attributeId, value, r))
    ensures (forall i :: 0 <= i < |refinements| ==> refinements[i].attributeId != attributeId) ==> r == value
    // the first matching refinement decides, and within it the first matching value
    ensures forall i :: FirstRefinement(refinements, attributeId, i) && refinements[i].values.None? ==> r == value
    ensures forall i :: FirstRefinement(refinements, attributeId, i) && refinements[i].values.Some? ==>
      ((forall j :: 0 <= j < |refinements[i].values.value| ==> refinements[i].values.value[j].value != value) ==> r == value)
    ensures forall i, j :: FirstRefinement(refinements, attributeId, i) && refinements[i].values.Some? ==>
      FirstValue(refinements[i].values.value, value, j) ==>
        r == LabelOrValue(refinements[i].values.value[j].displayLabel, value)
  {
    match FindRefinement(refinements, attributeId)
    case None => value
    case Some(refinement) =>
      assert forall i, k :: FirstRefinement(refinements, attributeId, i) && FirstRefinement(refinements, attributeId, k) ==> i == k;
      if refinement.values.None? then value
      else
        match FindValue(refinement.values.value, value)
        case Some(v) =>
          assert forall j, k :: FirstValue(refinement.values.value, value, j) && FirstValue(refinement.values.value, value, k) ==> j == k;
          LabelOrValue(v.displayLabel, value)
        case None => value
  }

  /** A non-empty label `text`, or else the raw value (`label || value`). */
  function LabelOrValue(text: Option<string>, value: string): (r: string)
    ensures text.Some? && text.value != "" ==> r == text.value
    ensures !(text.Some? && text.value != "") ==> r == value
  {
    if text.Some? && text.value != "" then text.value else value
  }

  /** The placeholder replaces the panel while loading with no refinements or no sorts yet. */
  predicate ShowsPlaceholder(isLoading: bool, refinements: seq<Refinement>, sorts: seq<SortOption>)
  {
    isLoading && (|refinements| == 0 || |sorts| == 0)
  }

  /** Once both lists are non-empty the panel shows, loading or not. */
  lemma PlaceholderOnlyWhileEmpty(isLoading: bool, refinements: seq<Refinement>, sorts: seq<SortOption>)
    ensures ShowsPlaceholder(isLoading, refinements, sorts) ==> isLoading
    ensures |refinements| > 0 && |sorts| > 0 ==> !ShowsPlaceholder(isLoading, refinements, sorts)
  {
  }

  /** A refinement with at least one value gets a section. */
  predicate HasValues(r: Refinement)
  {
    r.values.Some? && |r.values.value| > 0
  }

  /** The refinement sections, in input order: those with a non-empty list of values. */
  function ListedRefinements(refinements: seq<Refinement>): (r: seq<Refinement>)
    ensures Seqs.IsSubsequence(r, refinements)
    ensures forall i :: 0 <= i < |r| ==> HasValues(r[i])
    ensures forall i :: 0 <= i < |refinements| && HasValues(refinements[i]) ==> refinements[i] in r
    ensures forall x :: multiset(r)[x] == if HasValues(x) then multiset(refinements)[x] else 0
  {
    Seqs.Filter(refinements, HasValues)
  }

  /** The tags of one entry, one per value, in list order. */
  function EntryTags(e: Entry): (r: seq<Tag>)
    ensures |r| == |e.values|
    ensures forall k :: 0 <= k < |r| ==> r[k] == Tag(e.attributeId, e.values[k])
  {
    seq(|e.values|, k requires 0 <= k < |e.values| => Tag(e.attributeId, e.values[k]))
  }

  /** The tags of an entry are its attribute paired with each of its values. */
  lemma EntryTagsMembers(e: Entry)
    ensures forall t :: t in EntryTags(e) <==> t.attributeId == e.attributeId && t.value in e.values
  {
    forall t: Tag | t.attributeId == e.attributeId && t.value in e.values
      ensures t in EntryTags(e)
    {
      var k :| 0 <= k < |e.values| && e.values[k] == t.value;
      assert EntryTags(e)[k] == t;
    }
  }

  /** The active-filter tags: the entries' tags, entry after entry. */
  function ActiveTags(sel: Selection): (r: seq<Tag>)
    ensures forall t :: t in r <==> exists i :: 0 <= i < |sel| && sel[i].attributeId == t.attributeId && t.value in sel[i].values
    decreases |sel|
  {
    if |sel| == 0 then []
    else
      var rest := ActiveTags(sel[1..]);
      assert forall i :: 0 < i < |sel| ==> sel[i] == sel[1..][i - 1];
      EntryTagsMembers(sel[0]);
      EntryTags(sel[0]) + rest
  }

  /** The total number of values over all entries. */
  function ValueCount(sel: Selection): nat
    decreases |sel|
  {
    if |sel| == 0 then 0 else |sel[0].values| + ValueCount(sel[1..])
  }

  /** There is one tag per selected value. */
  lemma {:induction false} OneTagPerValue(sel: Selection)
    ensures |ActiveTags(sel)| == ValueCount(sel)
    decreases |sel|
  {
    if |sel| > 0 {
      OneTagPerValue(sel[1..]);
    }
  }

  /** The tags of two selections one after the other are the tags of the first, then of the second. */
  lemma {:induction false} ActiveTagsAppend(a: Selection, b: Selection)
    ensures ActiveTags(a + b) == ActiveTags(a) + ActiveTags(b)
    decreases |a|
  {
    if |a| == 0 {
      assert a + b == b;
    } else {
      assert (a + b)[1..] == a[1..] + b;
      assert (a + b)[0] == a[0];
      ActiveTagsAppend(a[1..], b);
    }
  }

  /** The tags of a selection split at an entry are the tags of the parts around it and of the entry. */
  lemma ActiveTagsSplit(sel: Selection, i: int)
    requires 0 <= i < |sel|
    ensures ActiveTags(sel) == ActiveTags(sel[..i]) + EntryTags(sel[i]) + ActiveTags(sel[i + 1..])
  {
    assert sel == sel[..i] + sel[i..];
    ActiveTagsAppend(sel[..i], sel[i..]);
    assert sel[i..][0] == sel[i];
    assert sel[i..][1..] == sel[i + 1..];
  }

  /** With distinct keys, a tag is shown exactly for each selected value. */
  lemma TaggedIffSelected(sel: Selection, attributeId: string, value: string)
    requires DistinctKeys(sel)
    ensures Tag(attributeId, value) in ActiveTags(sel) <==> IsValueSelected(sel, attributeId, value)
  {
  }
}
