/**
 * Variant selection on the product page (components/commerce/product-variations.tsx):
 * the selection update, the orderability and availability tests of a variation
 * value, and which attributes and values are offered.
 *
 * A selection is a `Record<string, string>`, modelled as a map. A value id read
 * with a non-null assertion (`value.value!`) may still be `undefined` at run time,
 * so the orderability test takes an `Option<string>`: `None` is `undefined`, which
 * equals what a variant reports for an attribute it does not carry.
 */
module ProductVariations {
  import opened Wrappers
  import Seqs

  type Selection = map<string, string>

  /** A variant of the master product. */
  datatype Variant = Variant(variationValues: Option<map<string, string>>, orderable: Option<bool>)

  /** One selectable value of an attribute. */
  datatype VariationValue = VariationValue(name: Option<string>, value: Option<string>)

  /** A variation attribute (colour, size, ...) and its values. */
  datatype VariationAttribute = VariationAttribute(
    id: Option<string>,
    name: Option<string>,
    values: Option<seq<VariationValue>>)

  /** `variant.variationValues?.[attributeId]`: `None` when either level is missing. */
  function ValueOf(v: Variant, attributeId: string): (r: Option<string>)
    ensures r.Some? <==> v.variationValues.Some? && attributeId in v.variationValues.value
    ensures r.Some? ==> r.value == v.variationValues.value[attributeId]
  {
    match v.variationValues
    case None => None
    case Some(values) => if attributeId in values then Some(values[attributeId]) else None
  }

  /** `variant.orderable !== false`: a missing flag counts as orderable. */
  predicate NotRefused(v: Variant)
  {
    v.orderable != Some(false)
  }

  /** `handleVariationSelect`: the selection with `attributeId` set to `value`. */
  function Select(selection: Selection, attributeId: string, value: string): (r: Selection)
    ensures attributeId in r && r[attributeId] == value
    ensures r.Keys == selection.Keys + {attributeId}
    ensures forall k :: k in selection && k != attributeId ==> r[k] == selection[k]
  {
    selection[attributeId := value]
  }

  // ---------------------------------------------------------------------------
  // Orderability
  // ---------------------------------------------------------------------------

  /** Some variant of `variants` carries `value` for `attributeId` and is not refused. */
  ghost predicate HasOrderableVariant(variants: seq<Variant>, attributeId: string, value: Option<string>)
  {
    exists i :: 0 <= i < |variants| && ValueOf(variants[i], attributeId) == value && NotRefused(variants[i])
  }

  /** `variants.some(...)` in `isVariationValueOrderable`. */
  function SomeOrderable(variants: seq<Variant>, attributeId: string, value: Option<string>): (r: bool)
    ensures r <==> HasOrderableVariant(variants, attributeId, value)
    decreases |variants|
  {
    if |variants| == 0 then false
    else if ValueOf(variants[0], attributeId) == value && NotRefused(variants[0]) then true
    else
      var rest := SomeOrderable(variants[1..], attributeId, value);
      assert HasOrderableVariant(variants[1..], attributeId, value) ==> HasOrderableVariant(variants, attributeId, value) by {
        if HasOrderableVariant(variants[1..], attributeId, value) {
          var i :| 0 <= i < |variants[1..]| && ValueOf(variants[1..][i], attributeId) == value && NotRefused(variants[1..][i]);
          assert variants[i + 1] == variants[1..][i];
        }
      }
      assert HasOrderableVariant(variants, attributeId, value) ==> HasOrderableVariant(variants[1..], attributeId, value) by {
        if HasOrderableVariant(variants, attributeId, value) {
          var i :| 0 <= i < |variants| && ValueOf(variants[i], attributeId) == value && NotRefused(variants[i]);
          assert i != 0;
          assert variants[1..][i - 1] == variants[i];
        }
      }
      rest
  }

  /** `isVariationValueOrderable`: true without a variant list. */
  function IsOrderable(variants: Option<seq<Variant>>, attributeId: string, value: Option<string>): (r: bool)
    ensures variants.None? ==> r
    ensures variants.Some? ==> (r <==> HasOrderableVariant(variants.value, attributeId, value))
  {
    match variants
    case None => true
    case Some(vs) => SomeOrderable(vs, attributeId, value)
  }

  // ---------------------------------------------------------------------------
  // Availability
  // ---------------------------------------------------------------------------

  /** Every entry of `selection` agrees with what the variant carries. */
  predicate MatchesSelection(v: Variant, selection: Selection)
  {
    forall k :: k in selection ==> ValueOf(v, k) == Some(selection[k])
  }

  /** Some variant that is not refused matches the whole of `selection`. */
  ghost predicate HasMatchingVariant(variants: seq<Variant>, selection: Selection)
  {
    exists i :: 0 <= i < |variants| && MatchesSelection(variants[i], selection) && NotRefused(variants[i])
  }

  /** `variants.some(...)` in `isVariationValueAvailable`. */
  function SomeMatching(variants: seq<Variant>, selection: Selection): (r: bool)
    ensures r <==> HasMatchingVariant(variants, selection)
    decreases |variants|
  {
    if |variants| == 0 then false
    else if MatchesSelection(variants[0], selection) && NotRefused(variants[0]) then true
    else
      var rest := SomeMatching(variants[1..], selection);
      assert HasMatchingVariant(variants[1..], selection) ==> HasMatchingVariant(variants, selection) by {
        if HasMatchingVariant(variants[1..], selection) {
          var i :| 0 <= i < |variants[1..]| && MatchesSelection(variants[1..][i], selection) && NotRefused(variants[1..][i]);
          assert variants[i + 1] == variants[1..][i];
        }
      }
      assert HasMatchingVariant(variants, selection) ==> HasMatchingVariant(variants[1..], selection) by {
        if HasMatchingVariant(variants, selection) {
          var i :| 0 <= i < |variants| && MatchesSelection(variants[i], selection) && NotRefused(variants[i]);
          assert i != 0;
          assert variants[1..][i - 1] == variants[i];
        }
      }
      rest
  }

  /**
   * `isVariationValueAvailable`: true without a variant list; otherwise some
   * variant that is not refused matches the current selection with
   * `attributeId` set to `value`.
   */
  function IsAvailable(variants: Option<seq<Variant>>, selection: Selection, attributeId: string, value: string): (r: bool)
    ensures variants.None? ==> r
    ensures variants.Some? ==> (r <==> HasMatchingVariant(variants.value, Select(selection, attributeId, value)))
  {
    match variants
    case None => true
    case Some(vs) => SomeMatching(vs, Select(selection, attributeId, value))
  }

  /** A value that is available is orderable. */
  lemma AvailableIsOrderable(variants: Option<seq<Variant>>, selection: Selection, attributeId: string, value: string)
    requires IsAvailable(variants, selection, attributeId, value)
    ensures IsOrderable(variants, attributeId, Some(value))
  {
    if variants.Some? {
      var vs := variants.value;
      var test := Select(selection, attributeId, value);
      var i :| 0 <= i < |vs| && MatchesSelection(vs[i], test) && NotRefused(vs[i]);
      assert ValueOf(vs[i], attributeId) == Some(value);
    }
  }

  /** `larger` keeps every entry of `smaller`, possibly adding more. */
  predicate Extends(larger: Selection, smaller: Selection)
  {
    forall k :: k in smaller ==> k in larger && larger[k] == smaller[k]
  }

  /** Making more choices can only make a value unavailable, never available. */
  lemma MoreChoicesNeverUnlock(variants: Option<seq<Variant>>, smaller: Selection, larger: Selection, attributeId: string, value: string)
    requires Extends(larger, smaller)
    requires IsAvailable(variants, larger, attributeId, value)
    ensures IsAvailable(variants, smaller, attributeId, value)
  {
    if variants.Some? {
      var vs := variants.value;
      var big, small := Select(larger, attributeId, value), Select(smaller, attributeId, value);
      var i :| 0 <= i < |vs| && MatchesSelection(vs[i], big) && NotRefused(vs[i]);
      assert MatchesSelection(vs[i], small) by {
        forall k | k in small
          ensures ValueOf(vs[i], k) == Some(small[k])
        {
          assert k in big && big[k] == small[k];
        }
      }
    }
  }

  // ---------------------------------------------------------------------------
  // What is offered
  // ---------------------------------------------------------------------------

  /** The orderable values of an attribute, in the order the attribute lists them. */
  function OrderableValues(variants: Option<seq<Variant>>, attributeId: string, values: seq<VariationValue>): (r: seq<VariationValue>)
    ensures Seqs.IsSubsequence(r, values)
    ensures forall i :: 0 <= i < |r| ==> IsOrderable(variants, attributeId, r[i].value)
    ensures forall i :: 0 <= i < |values| && IsOrderable(variants, attributeId, values[i].value) ==> values[i] in r
    ensures forall x :: multiset(r)[x] == if IsOrderable(variants, attributeId, x.value) then multiset(values)[x] else 0
  {
    Seqs.Filter(values, (x: VariationValue) => IsOrderable(variants, attributeId, x.value))
  }

  /** JavaScript truthiness of an optional string. */
  predicate Truthy(s: Option<string>)
  {
    s.Some? && s.value != ""
  }

  /**
   * The values an attribute counts as orderable (they decide whether it renders
   * and the option count), or `None` when it renders nothing: it has no id (or an
   * empty one), no values list, or no orderable value. Which of them get a button
   * is `ShownValues`.
   */
  function OfferedValues(variants: Option<seq<Variant>>, attribute: VariationAttribute): (r: Option<seq<VariationValue>>)
    ensures !Truthy(attribute.id) || attribute.values.None? ==> r.None?
    ensures r.Some? ==> |r.value| > 0 && Seqs.IsSubsequence(r.value, attribute.values.value)
    ensures r.Some? ==> forall i :: 0 <= i < |r.value| ==> IsOrderable(variants, attribute.id.value, r.value[i].value)
    ensures Truthy(attribute.id) && attribute.values.Some? &&
      (exists i :: 0 <= i < |attribute.values.value| && IsOrderable(variants, attribute.id.value, attribute.values.value[i].value))
      ==> r.Some?
    ensures r.Some? ==> r.value == OrderableValues(variants, attribute.id.value, attribute.values.value)
    ensures r.Some? ==> forall i :: 0 <= i < |attribute.values.value| ==>
      IsOrderable(variants, attribute.id.value, attribute.values.value[i].value) ==> attribute.values.value[i] in r.value
  {
    if !Truthy(attribute.id) || attribute.values.None? then None
    else
      var offered := OrderableValues(variants, attribute.id.value, attribute.values.value);
      if |offered| == 0 then None else Some(offered)
  }

  /** The buttons drawn for the offered values: a value without a non-empty id renders nothing. */
  function ShownValues(offered: seq<VariationValue>): (r: seq<VariationValue>)
    ensures Seqs.IsSubsequence(r, offered)
    ensures forall i :: 0 <= i < |r| ==> Truthy(r[i].value)
    ensures forall i :: 0 <= i < |offered| && Truthy(offered[i].value) ==> offered[i] in r
    ensures forall x :: multiset(r)[x] == if Truthy(x.value) then multiset(offered)[x] else 0
  {
    Seqs.Filter(offered, (v: VariationValue) => Truthy(v.value))
  }

  /**
   * Without a variant list a value with an undefined id counts as orderable, so it
   * keeps the attribute on screen and is counted, yet it gets no button.
   */
  lemma UndefinedIdCountedNotShown(attribute: VariationAttribute, i: int)
    requires Truthy(attribute.id) && attribute.values.Some?
    requires 0 <= i < |attribute.values.value| && attribute.values.value[i].value.None?
    ensures var r := OfferedValues(None, attribute);
      r.Some? && attribute.values.value[i] in r.value && attribute.values.value[i] !in ShownValues(r.value)
  {
    var r := OfferedValues(None, attribute);
    assert IsOrderable(None, attribute.id.value, attribute.values.value[i].value);
    assert r.Some?;
  }

  /** The whole component: nothing at all without attributes, else one entry per attribute. */
  function Offered(variants: Option<seq<Variant>>, attributes: Option<seq<VariationAttribute>>): (r: Option<seq<Option<seq<VariationValue>>>>)
    ensures r.None? <==> attributes.None? || |attributes.value| == 0
    ensures r.Some? ==> |r.value| == |attributes.value|
    ensures r.Some? ==> forall i :: 0 <= i < |r.value| ==> r.value[i] == OfferedValues(variants, attributes.value[i])
  {
    if attributes.None? || |attributes.value| == 0 then None
    else Some(seq(|attributes.value|, i requires 0 <= i < |attributes.value| => OfferedValues(variants, attributes.value[i])))
  }

  /** `i` is the first position of a value whose id is `id`. */
  ghost predicate FirstWithId(values: seq<VariationValue>, id: string, i: int)
  {
    && 0 <= i < |values|
    && values[i].value == Some(id)
    && forall j :: 0 <= j < i ==> values[j].value != Some(id)
  }

  /** The first value whose id is `id`, as `Array.prototype.find` returns it. */
  function FindValue(values: seq<VariationValue>, id: string): (r: Option<VariationValue>)
    ensures r.Some? ==> r.value in values && r.value.value == Some(id)
    ensures r.None? <==> forall i :: 0 <= i < |values| ==> values[i].value != Some(id)
    ensures r.Some? ==> exists i :: FirstWithId(values, id, i) && values[i] == r.value
    decreases |values|
  {
    if |values| == 0 then None
    else if values[0].value == Some(id) then
      assert FirstWithId(values, id, 0);
      Some(values[0])
    else
      var r := FindValue(values[1..], id);
      assert forall i :: 0 < i < |values| ==> values[i] == values[1..][i - 1];
      assert r.Some? ==> exists i :: FirstWithId(values, id, i) && values[i] == r.value by {
        if r.Some? {
          var k :| FirstWithId(values[1..], id, k) && values[1..][k] == r.value;
          assert FirstWithId(values, id, k + 1);
        }
      }
      r
  }

  /** There is at most one first position. */
  lemma FirstWithIdUnique(values: seq<VariationValue>, id: string, i: int, k: int)
    requires FirstWithId(values, id, i) && FirstWithId(values, id, k)
    ensures i == k
  {
  }

  /**
   * The badge beside an attribute's name: absent unless a non-empty value is
   * selected for it; then the name of the first offered value with that id, or
   * the raw id when there is no such value or its name is empty.
   */
  function SelectedBadge(selection: Selection, attributeId: string, offered: seq<VariationValue>): (r: Option<string>)
    ensures r.Some? <==> attributeId in selection && selection[attributeId] != ""
    ensures r.Some? ==> forall i :: FirstWithId(offered, selection[attributeId], i) ==>
      r.value == if Truthy(offered[i].name) then offered[i].name.value else selection[attributeId]
    ensures r.Some? && (forall i :: 0 <= i < |offered| ==> offered[i].value != Some(selection[attributeId])) ==>
      r.value == selection[attributeId]
  {
    if attributeId !in selection || selection[attributeId] == "" then None
    else
      var chosen := selection[attributeId];
      var found := FindValue(offered, chosen);
      var r := match found
        case Some(v) => if Truthy(v.name) then Some(v.name.value) else Some(chosen)
        case None => Some(chosen);
      assert forall i :: FirstWithId(offered, chosen, i) ==>
        r.value == if Truthy(offered[i].name) then offered[i].name.value else chosen by {
        if found.Some? {
          var k :| FirstWithId(offered, chosen, k) && offered[k] == found.value;
          forall i | FirstWithId(offered, chosen, i)
            ensures r.value == if Truthy(offered[i].name) then offered[i].name.value else chosen
          {
            FirstWithIdUnique(offered, chosen, i, k);
          }
        }
      }
      r
  }
}
