/** The bet panel on the client: the upper bound a player may stake, the
    eight buttons that adjust the amount, the digit-only text filter, the
    step labels and the rule that enables the place button. Step sizes are
    inputs (their logarithmic derivation is not modelled). */
module BetPanel {
  import opened Decimal

  /** The panel's bounds when its parent passes none. */
  const DefaultMinBet: real := 1.0
  const DefaultMaxBet: real := 10000.0

  datatype Modifier = Half | MinusLarge | MinusSmall | PlusSmall | PlusLarge | Double | SetMin | SetMax

  function Min(a: real, b: real): real {
    if a <= b then a else b
  }

  function Max(a: real, b: real): real {
    if a >= b then a else b
  }

  /** The most a player may stake here: the room's bound or the balance,
      whichever is smaller. */
  function EffectiveMaxBet(maxBet: real, playerBalance: real): (e: real)
    ensures e <= maxBet && e <= playerBalance
    ensures e == maxBet || e == playerBalance
  {
    Min(maxBet, playerBalance)
  }

  /** The amount after pressing a button. Lowering buttons never go below
      the minimum, raising buttons never above the effective maximum. */
  function ModifyBet(op: Modifier, current: real, minBet: real, effectiveMax: real, smallStep: real, largeStep: real): (v: real)
    ensures op == Half || op == MinusLarge || op == MinusSmall ==> v >= minBet
    ensures op == PlusSmall || op == PlusLarge || op == Double ==> v <= effectiveMax
    ensures op == SetMin ==> v == minBet
    ensures op == SetMax ==> v == effectiveMax
  {
    match op
    case SetMin => minBet
    case Half => Max(minBet, (current / 2.0).Floor as real)
    case MinusLarge => Max(minBet, current - largeStep)
    case MinusSmall => Max(minBet, current - smallStep)
    case PlusSmall => Min(effectiveMax, current + smallStep)
    case PlusLarge => Min(effectiveMax, current + largeStep)
    case Double => Min(effectiveMax, current * 2.0)
    case SetMax => effectiveMax
  }

  /** Halving rounds down to a whole amount, unless that falls below the
      minimum: the result is the larger of the minimum and the whole amount
      just at or below half. */
  lemma HalfRoundsDown(current: real, minBet: real, effectiveMax: real, smallStep: real, largeStep: real)
    ensures var v := ModifyBet(Half, current, minBet, effectiveMax, smallStep, largeStep);
      && v >= minBet
      && v >= (current / 2.0).Floor as real
      && (v == minBet || (v <= current / 2.0 && v > current / 2.0 - 1.0 && v == v.Floor as real))
  {
  }

  /** When a button is greyed out (the source's `disabled` conditions). */
  predicate ModifierDisabled(op: Modifier, current: real, minBet: real, effectiveMax: real) {
    match op
    case Double => current * 2.0 > effectiveMax || current == 0.0
    case PlusLarge => current >= effectiveMax
    case PlusSmall => current >= effectiveMax
    case SetMax => current >= effectiveMax
    case Half => current <= minBet
    case MinusLarge => current <= minBet
    case MinusSmall => current <= minBet
    case SetMin => current <= minBet
  }

  /** Whether the place button is active. */
  predicate PlaceEnabled(isDisabled: bool, current: real, minBet: real, effectiveMax: real) {
    !isDisabled && minBet <= current && current <= effectiveMax
  }

  /** The place button is active exactly when the panel is enabled and the
      amount lies between the minimum, the room's maximum and the balance. */
  lemma PlaceEnabledMeansAffordable(isDisabled: bool, current: real, minBet: real, maxBet: real, playerBalance: real)
    ensures PlaceEnabled(isDisabled, current, minBet, EffectiveMaxBet(maxBet, playerBalance))
      <==> !isDisabled && minBet <= current && current <= maxBet && current <= playerBalance
  {
  }

  /** From a placeable amount every button yields a placeable amount. */
  lemma ModifierKeepsPlaceable(op: Modifier, current: real, minBet: real, effectiveMax: real, smallStep: real, largeStep: real)
    requires minBet >= 0.0 && smallStep >= 0.0 && largeStep >= 0.0
    requires PlaceEnabled(false, current, minBet, effectiveMax)
    ensures PlaceEnabled(false, ModifyBet(op, current, minBet, effectiveMax, smallStep, largeStep), minBet, effectiveMax)
  {
    if op == Half {
      assert (current / 2.0).Floor as real <= current / 2.0 <= current;
    }
  }

  /** A button that is not greyed out moves the amount in its direction. */
  lemma EnabledModifierMoves(op: Modifier, current: real, minBet: real, effectiveMax: real, smallStep: real, largeStep: real)
    requires minBet >= 0.0 && current >= 0.0 && smallStep > 0.0 && largeStep > 0.0
    requires !ModifierDisabled(op, current, minBet, effectiveMax)
    ensures var v := ModifyBet(op, current, minBet, effectiveMax, smallStep, largeStep);
      && (op == Half || op == MinusLarge || op == MinusSmall || op == SetMin ==> v < current)
      && (op == PlusSmall || op == PlusLarge || op == Double || op == SetMax ==> v > current)
  {
    if op == Half {
      assert (current / 2.0).Floor as real <= current / 2.0 < current;
    }
  }

  /** The text field keeps the typed value only when it is empty or made of
      decimal digits; otherwise the previous value stays. */
  function FilterInput(previous: string, typed: string): (r: string)
    ensures r == typed || r == previous
    ensures AllDigits(previous) ==> AllDigits(r)
    ensures typed != previous ==> (r == typed <==> AllDigits(typed))
  {
    if typed == "" || AllDigits(typed) then typed else previous
  }

  /** Every whole number typed in full is accepted, and reads back as
      itself. */
  lemma FilterAcceptsNumerals(previous: string, n: nat)
    ensures FilterInput(previous, Show(n)) == Show(n)
    ensures Parse(FilterInput(previous, Show(n))) == n
  {
    ParseShow(n);
  }

  /** A typed text holding any character other than a decimal digit is
      refused, so signs, decimal points and exponents are. */
  lemma FilterRefusesNonDigits(previous: string)
    ensures forall typed, i :: 0 <= i < |typed| && !IsDigit(typed[i]) ==> FilterInput(previous, typed) == previous
    ensures FilterInput(previous, "-5") == previous
    ensures FilterInput(previous, "1.5") == previous
    ensures FilterInput(previous, "1e3") == previous
  {
    assert !IsDigit("-5"[0]);
    assert !IsDigit("1.5"[1]);
    assert !IsDigit("1e3"[1]);
  }

  /** `Math.round(step / 1000)` for a non-negative integer step. */
  function Thousands(step: nat): nat {
    (step + 500) / 1000
  }

  /** The label of a step button: thousands abbreviated with `k`. */
  function FormatStep(step: nat): (s: string)
    ensures |s| >= 1
    ensures step >= 1000 <==> s[|s| - 1] == 'k'
  {
    if step >= 1000 then Show(Thousands(step)) + "k" else Show(step)
  }

  /** Reading a label back: a `k` label gives the step rounded to the
      nearest thousand (exactly, for multiples of a thousand), any other
      label the step itself. */
  lemma FormatStepReadsBack(step: nat)
    ensures var s := FormatStep(step);
      if step >= 1000 then
        && AllDigits(s[..|s| - 1])
        && var n := Parse(s[..|s| - 1]);
        && step - 500 < n * 1000 <= step + 500
        && (step % 1000 == 0 ==> n * 1000 == step)
      else AllDigits(s) && Parse(s) == step
  {
    ParseShow(step);
    ParseShow(Thousands(step));
    if step >= 1000 {
      var s := FormatStep(step);
      assert s[..|s| - 1] == Show(Thousands(step));
    }
  }
}
