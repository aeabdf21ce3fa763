/**
 * The bounded quantity stepper (components/commerce/quantity-selector.tsx).
 * A press of either button either emits a new value through `onValueChange`
 * or does nothing; the emission is modelled as `Some(newValue)` or `None`.
 * Quantities are modelled as integers.
 */
module QuantitySelector {
  import opened Wrappers

  const DefaultMin: int := 1
  const DefaultMax: int := 999

  /** The props the handlers read. */
  datatype Stepper = Stepper(value: int, min: int, max: int, disabled: bool)

  /** The props with the component's defaults filled in for the optional ones. */
  function WithDefaults(value: int, min: Option<int>, max: Option<int>, disabled: Option<bool>): (s: Stepper)
    ensures s.value == value
    ensures s.min == (if min.Some? then min.value else 1)
    ensures s.max == (if max.Some? then max.value else 999)
    ensures s.disabled <==> disabled == Some(true)
  {
    Stepper(value, min.GetOr(DefaultMin), max.GetOr(DefaultMax), disabled.GetOr(false))
  }

  /** `canIncrement`: whether the "+" button is enabled. */
  predicate CanIncrement(s: Stepper)
  {
    !s.disabled && s.value < s.max
  }

  /** `canDecrement`: whether the "−" button is enabled. */
  predicate CanDecrement(s: Stepper)
  {
    !s.disabled && s.value > s.min
  }

  /** `handleIncrement`: emits one more exactly when the "+" button is enabled. */
  function HandleIncrement(s: Stepper): (r: Option<int>)
    ensures r.Some? <==> CanIncrement(s)
    ensures r.Some? ==> r.value == s.value + 1 && r.value <= s.max
  {
    if !s.disabled && s.value < s.max then Some(s.value + 1) else None
  }

  /** `handleDecrement`: emits one less exactly when the "−" button is enabled. */
  function HandleDecrement(s: Stepper): (r: Option<int>)
    ensures r.Some? <==> CanDecrement(s)
    ensures r.Some? ==> r.value == s.value - 1 && r.value >= s.min
  {
    if !s.disabled && s.value > s.min then Some(s.value - 1) else None
  }

  /** A disabled stepper emits nothing from either button. */
  lemma DisabledIsInert(s: Stepper)
    requires s.disabled
    ensures HandleIncrement(s).None? && HandleDecrement(s).None?
  {
  }

  /** From a value within `[min, max]`, every emitted value is within `[min, max]`. */
  lemma EmittedWithinBounds(s: Stepper)
    requires s.min <= s.value <= s.max
    ensures HandleIncrement(s).Some? ==> s.min <= HandleIncrement(s).value <= s.max
    ensures HandleDecrement(s).Some? ==> s.min <= HandleDecrement(s).value <= s.max
  {
  }

  /** A press of "+" followed by a press of "−" returns to the starting value. */
  lemma IncrementThenDecrement(s: Stepper)
    requires s.min <= s.value
    requires HandleIncrement(s).Some?
    ensures HandleDecrement(s.(value := HandleIncrement(s).value)) == Some(s.value)
  {
  }

  /** A press of "−" followed by a press of "+" returns to the starting value. */
  lemma DecrementThenIncrement(s: Stepper)
    requires s.value <= s.max
    requires HandleDecrement(s).Some?
    ensures HandleIncrement(s.(value := HandleDecrement(s).value)) == Some(s.value)
  {
  }

  /** One of the two buttons. */
  datatype Press = Plus | Minus

  /**
   * The stepper after a series of presses, with the parent feeding every emitted
   * value back as the new `value` prop.
   */
  function AfterPresses(s: Stepper, presses: seq<Press>): Stepper
    decreases |presses|
  {
    if |presses| == 0 then s
    else
      var emitted := if presses[0] == Plus then HandleIncrement(s) else HandleDecrement(s);
      var next := if emitted.Some? then s.(value := emitted.value) else s;
      AfterPresses(next, presses[1..])
  }

  /**
   * Whatever the presses, a value that starts within `[min, max]` stays there, the
   * bounds and the disabled flag are untouched, and the value moves by at most one
   * per press.
   */
  lemma {:induction false} PressesStayWithinBounds(s: Stepper, presses: seq<Press>)
    requires s.min <= s.value <= s.max
    ensures var t := AfterPresses(s, presses);
      && t.min == s.min && t.max == s.max && t.disabled == s.disabled
      && s.min <= t.value <= s.max
      && s.value - |presses| <= t.value <= s.value + |presses|
    decreases |presses|
  {
    if |presses| > 0 {
      var emitted := if presses[0] == Plus then HandleIncrement(s) else HandleDecrement(s);
      var next := if emitted.Some? then s.(value := emitted.value) else s;
      EmittedWithinBounds(s);
      PressesStayWithinBounds(next, presses[1..]);
    }
  }
}
